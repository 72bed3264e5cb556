/** The language of target lists: the grammar that iprange/y.go was generated from, and what it means. */
module IpGrammar {
  import opened IpRange
  import opened Cidr

  type octet = x: int | 0 <= x < 256

  /** A token: the parser's internal numbering, with the value of a number. */
  datatype Token = Num(n: octet) | Punct(kind: int) {
    function Kind(): int { if Num? then NUM else kind }
  }

  const END := 1
  const NUM := 4
  const COMMA := 5
  const SPACE := 6
  const SLASH := 7
  const DOT := 8
  const STAR := 9
  const DASH := 10

  /** term: num | '*' | num '-' num */
  datatype Term = Single(n: octet) | Any | Span(lo: octet, hi: octet)

  /** address: term '.' term '.' term '.' term */
  datatype Address = Address(a: Term, b: Term, c: Term, d: Term)

  /** target: address | address '/' num */
  datatype Target = Plain(addr: Address) | Block(addr: Address, bits: octet)

  /** result: target | result comma target, where comma: ',' | ',' ' ' */
  datatype Result = One(t: Target) | More(r: Result, spaced: bool, t: Target)

  function YieldTerm(t: Term): seq<Token> {
    match t
    case Single(n) => [Num(n)]
    case Any => [Punct(STAR)]
    case Span(lo, hi) => [Num(lo), Punct(DASH), Num(hi)]
  }

  function YieldAddress(a: Address): seq<Token> {
    YieldTerm(a.a) +
      ([Punct(DOT)] + (YieldTerm(a.b) + ([Punct(DOT)] + (YieldTerm(a.c) + ([Punct(DOT)] + YieldTerm(a.d))))))
  }

  function YieldTarget(t: Target): seq<Token> {
    if t.Plain? then YieldAddress(t.addr) else YieldAddress(t.addr) + [Punct(SLASH), Num(t.bits)]
  }

  function YieldComma(spaced: bool): seq<Token> {
    if spaced then [Punct(COMMA), Punct(SPACE)] else [Punct(COMMA)]
  }

  function Yield(r: Result): seq<Token> {
    match r
    case One(t) => YieldTarget(t)
    case More(r, spaced, t) => Yield(r) + (YieldComma(spaced) + YieldTarget(t))
  }

  datatype OctetRange = OctetRange(min: octet, max: octet)

  function DenoteTerm(t: Term): OctetRange {
    match t
    case Single(n) => OctetRange(n, n)
    case Any => OctetRange(0, 255)
    case Span(lo, hi) => OctetRange(lo, hi)
  }

  function FromOctets(a: OctetRange, b: OctetRange, c: OctetRange, d: OctetRange): AddressRange {
    AddressRange([a.min, b.min, c.min, d.min], [a.max, b.max, c.max, d.max])
  }

  function DenoteAddress(a: Address): AddressRange {
    FromOctets(DenoteTerm(a.a), DenoteTerm(a.b), DenoteTerm(a.c), DenoteTerm(a.d))
  }

  /** There is no network mask of more than 32 bits. */
  predicate TargetOk(t: Target) { t.Block? ==> t.bits <= 32 }

  /** A block is taken around the lower end of its address. */
  function DenoteTarget(t: Target): AddressRange
    requires TargetOk(t)
  {
    if t.Plain? then DenoteAddress(t.addr) else Block32(DenoteAddress(t.addr).min, t.bits)
  }

  predicate Ok(r: Result) {
    TargetOk(r.t) && (r.More? ==> Ok(r.r))
  }

  function Denote(r: Result): seq<AddressRange>
    requires Ok(r)
  {
    match r
    case One(t) => [DenoteTarget(t)]
    case More(r, _, t) => Denote(r) + [DenoteTarget(t)]
  }
}
