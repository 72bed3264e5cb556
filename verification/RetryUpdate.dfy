/**
 * retryupdate/update.go: an optimistic update through a versioned store (retryupdate/kvapi). Between two
 * requests others may write or delete; a request may be dropped, or carried out with its answer lost.
 */
module RetryUpdate {
  import opened Common

  datatype Key = Key(name: string)
  datatype Value = Value(text: string)

  /** A uuid; ZERO is the zero value, which no stored entry has. */
  type Version = nat
  const ZERO: Version := 0

  datatype Result<T> = Ok(value: T) | Err(error: nat)

  datatype Entry = Entry(value: Value, version: Version)

  datatype Interference = Write(key: Key, value: Value) | Delete(key: Key)

  datatype Fate = Answered | Dropped | AnswerLost | Denied

  /** What happens before the next request arrives, and to the request itself. */
  datatype Turn = Turn(others: seq<Interference>, fate: Fate)

  datatype GetAnswer = Found(entry: Entry) | GetNotFound | GetDenied | GetFailed
  datatype SetAnswer = Stored | Conflict(expected: Version) | SetNotFound | SetDenied | SetFailed

  /** A Set of this client that took effect: what the key held at that instant and what it got. */
  datatype Applied = Applied(key: Key, before: Option<Value>, stored: Value, version: Version)

  datatype Method = GetRequest | SetRequest

  /** A request of this client: what became of it, and what its key held at that instant. */
  datatype Call = Call(which: Method, key: Key, fate: Fate, held: Option<Value>)

  /** The name UpdateValue reports for a refused request. */
  function Name(which: Method): string { if which.GetRequest? then "get" else "set" }

  /** One more request has been made. */
  ghost predicate Asked(was: seq<Call>, calls: seq<Call>, which: Method, key: Key) {
    |calls| == |was| + 1 && calls[..|was|] == was && calls[|was|].which == which && calls[|was|].key == key
  }

  function Held(data: map<Key, Entry>, key: Key): Option<Value> {
    if key in data then Some(data[key].value) else None
  }

  predicate Quiet(turns: seq<Turn>) { forall t :: t in turns ==> t.others == [] }

  predicate NeverDenied(turns: seq<Turn>) { forall t :: t in turns ==> t.fate != Denied }

  class Server {
    var data: map<Key, Entry>
    var unused: Version
    var turns: seq<Turn>
    ghost var log: seq<Applied>
    ghost var calls: seq<Call>             // the requests of this client
    ghost var foreign: set<Version>        // versions stored by others
    ghost var written: map<Version, Value> // what each stored version stands for

    ghost predicate Valid()
      reads this
    {
      unused > 0 && Known(data, unused, foreign, log, written) && (forall v :: v in foreign ==> v < unused) &&
      (forall v :: v in written ==> ZERO < v < unused) && (forall a :: a in log ==> a.version < unused)
    }

    /** uuid.NewV4: a version nobody has used. */
    method NewVersion() returns (v: Version)
      requires Valid()
      modifies this`unused
      ensures Valid() && v == old(unused) && unused == v + 1 && v !in written && v !in foreign
    {
      v := unused;
      unused := unused + 1;
    }

    /** The other clients' doings before the next request. */
    method Interfere() returns (fate: Fate)
      requires Valid()
      modifies this`data, this`unused, this`turns, this`foreign, this`written
      ensures Valid() && unused >= old(unused) && Extends(written, old(written))
      ensures NoneBelow(old(unused), foreign, old(foreign)) && NoneBelow(old(unused), written.Keys, old(written.Keys))
      ensures old(Quiet(turns)) ==> Quiet(turns) && data == old(data)
      ensures old(NeverDenied(turns)) ==> NeverDenied(turns) && fate != Denied
      ensures |turns| <= |old(turns)| && (old(turns) != [] ==> |turns| < |old(turns)|)
      ensures old(turns) == [] ==> fate == Answered && data == old(data)
      ensures old(turns) != [] ==> fate == old(turns[0].fate)
    {
      if turns == [] { return Answered; }
      var turn := turns[0];
      turns := turns[1..];
      fate := turn.fate;
      assert turn in old(turns) && forall t :: t in turns ==> t in old(turns);
      for i := 0 to |turn.others|
        invariant turns == old(turns)[1..] && Valid() && unused >= old(unused) && Extends(written, old(written))
        invariant NoneBelow(old(unused), foreign, old(foreign)) &&
          NoneBelow(old(unused), written.Keys, old(written.Keys))
        invariant turn.others == [] ==> data == old(data)
      {
        match turn.others[i]
        case Write(key, value) =>
          data := data[key := Entry(value, unused)];
          foreign := foreign + {unused};
          written := written[unused := value];
          unused := unused + 1;
        case Delete(key) =>
          data := data - {key};
      }
    }

    method Get(key: Key) returns (answer: GetAnswer)
      requires Valid()
      modifies this`data, this`unused, this`turns, this`foreign, this`written, this`calls
      ensures Valid() && unused >= old(unused) && Extends(written, old(written))
      ensures NoneBelow(old(unused), foreign, old(foreign)) && NoneBelow(old(unused), written.Keys, old(written.Keys))
      ensures old(Quiet(turns)) ==> Quiet(turns) && data == old(data)
      ensures Asked(old(calls), calls, GetRequest, key)
      ensures var call := calls[|old(calls)|];
        call.held == Held(data, key) && (answer.GetDenied? <==> call.fate.Denied?) &&
        (answer.Found? || answer.GetNotFound? <==> call.fate.Answered?) &&
        (old(turns) != [] ==> call.fate == old(turns[0].fate))
      ensures old(NeverDenied(turns)) ==> NeverDenied(turns) && !answer.GetDenied?
      ensures |turns| <= |old(turns)| && (old(turns) != [] ==> |turns| < |old(turns)|)
      ensures old(turns) == [] ==> answer.Found? || answer.GetNotFound?
      ensures answer.Found? ==> key in data && data[key] == answer.entry
      ensures answer.GetNotFound? ==> key !in data
    {
      var fate := Interfere();
      calls := calls + [Call(GetRequest, key, fate, Held(data, key))];
      match fate
      case Answered => return if key in data then Found(data[key]) else GetNotFound;
      case Denied => return GetDenied;
      case _ => return GetFailed;
    }

    /** Whether a Set naming `oldVersion` would take effect now. */
    predicate Matches(key: Key, oldVersion: Version)
      reads this
    {
      if key in data then data[key].version == oldVersion else oldVersion == ZERO
    }

    /** A Set that takes effect, recorded in the log. */
    method Store(key: Key, value: Value, oldVersion: Version, newVersion: Version)
      requires Valid() && CanStore(value, oldVersion, newVersion) && Matches(key, oldVersion)
      modifies this`data, this`log, this`written
      ensures Valid() && Extends(written, old(written)) && CanStore(value, oldVersion, newVersion)
      ensures data == old(data)[key := Entry(value, newVersion)]
      ensures log == old(log) + [Applied(key, old(Held(data, key)), value, newVersion)]
    {
      log := log + [Applied(key, Held(data, key), value, newVersion)];
      written := written[newVersion := value];
      data := data[key := Entry(value, newVersion)];
      assert log[|log| - 1].version == newVersion;
      assert forall a :: a in old(log) ==> a in log;
    }

    /** The new version is the client's own, and stands for no other value. */
    ghost predicate CanStore(value: Value, oldVersion: Version, newVersion: Version)
      reads this
    {
      ZERO < newVersion < unused && newVersion !in foreign &&
        (newVersion in written ==> written[newVersion] == value) &&
      (oldVersion != ZERO ==> oldVersion in written)
    }

    method Set(key: Key, value: Value, oldVersion: Version, newVersion: Version) returns (answer: SetAnswer)
      requires Valid() && CanStore(value, oldVersion, newVersion)
      modifies this`data, this`unused, this`turns, this`foreign, this`written, this`log, this`calls
      ensures Valid() && unused >= old(unused) && Extends(written, old(written)) &&
        CanStore(value, oldVersion, newVersion)
      ensures Asked(old(calls), calls, SetRequest, key)
      ensures var call := calls[|old(calls)|];
        (answer.SetDenied? <==> call.fate.Denied?) && (answer.SetFailed? <==> call.fate in {Dropped, AnswerLost}) &&
        (answer.SetNotFound? ==> call.held == None)
      ensures log == old(log) || (exists before ::
        log == old(log) + [Applied(key, before, value, newVersion)] && Names(old(written), oldVersion, before))
      ensures answer.Stored? ==> |log| == |old(log)| + 1
      ensures answer.Conflict? ==> key in data && data[key].version == answer.expected && log == old(log)
      ensures answer.SetNotFound? ==> key !in data && log == old(log)
      ensures |turns| <= |old(turns)| && (old(turns) != [] ==> |turns| < |old(turns)|)
      ensures old(NeverDenied(turns)) ==> NeverDenied(turns) && !answer.SetDenied?
      ensures old(Quiet(turns)) ==> Quiet(turns)
      ensures old(Quiet(turns)) && log == old(log) ==> data == old(data)
      ensures old(Quiet(turns)) && log != old(log) ==>
        old(Matches(key, oldVersion)) && data == old(data)[key := Entry(value, newVersion)]
      ensures (old(Quiet(turns)) || old(turns) == []) && old(Matches(key, oldVersion)) ==>
        !answer.Conflict? && !answer.SetNotFound?
      ensures old(turns) == [] && old(Matches(key, oldVersion)) ==> answer.Stored?
      ensures old(turns) == [] ==> !answer.SetFailed? && !answer.SetDenied?
    {
      var fate := Interfere();
      calls := calls + [Call(SetRequest, key, fate, Held(data, key))];
      match fate
      case Denied => return SetDenied;
      case Dropped => return SetFailed;
      case _ =>
        if Matches(key, oldVersion) {
          Store(key, value, oldVersion, newVersion);
          return if fate == Answered then Stored else SetFailed;
        } else {
          answer := if key in data then Conflict(data[key].version) else SetNotFound;
          return if fate == Answered then answer else SetFailed;
        }
    }
  }

  /** Others only use versions nobody had. */
  ghost predicate NoneBelow(limit: Version, now: set<Version>, was: set<Version>) {
    forall v :: v in now && v < limit ==> v in was
  }

  ghost predicate Extends(m: map<Version, Value>, was: map<Version, Value>) {
    forall v :: v in was ==> v in m && m[v] == was[v]
  }

  /** The value, or absence, that a version stands for. */
  ghost predicate Names(written: map<Version, Value>, version: Version, before: Option<Value>) {
    if version == ZERO then before == None else version in written && before == Some(written[version])
  }

  /** Every stored version was put there by others or by this client, and stands for the value beside it. */
  ghost predicate Known(data: map<Key, Entry>, unused: Version, foreign: set<Version>, log: seq<Applied>,
                        written: map<Version, Value>) {
    forall k :: k in data ==>
      data[k].version in written && written[data[k].version] == data[k].value &&
      (data[k].version in foreign || InLog(log, data[k].version))
  }

  ghost predicate InLog(log: seq<Applied>, v: Version) { exists a :: a in log && a.version == v }

  // ---- UpdateValue ----

  datatype Outcome = Nil | AuthError(call: string) | UpdateError(error: nat)

  /** What the update function says for the value, or absence, that `version` stands for. */
  ghost predicate Computed(f: Option<Value> -> Result<Value>, written: map<Version, Value>, version: Version,
    value: Value) {
    exists before :: Names(written, version, before) && f(before) == Ok(value)
  }

  /** Each of this client's Sets that took effect stored the update of what the key held at that instant. */
  ghost predicate Right(f: Option<Value> -> Result<Value>, key: Key, mine: seq<Applied>) {
    forall a :: a in mine ==> a.key == key && f(a.before) == Ok(a.stored)
  }

  /** The log since `log0`. */
  ghost predicate Correct(f: Option<Value> -> Result<Value>, key: Key, log0: seq<Applied>, log: seq<Applied>) {
    |log0| <= |log| && log[..|log0|] == log0 && Right(f, key, log[|log0|..])
  }

  /** The only thing done: one Set, under `version`. */
  ghost predicate OnlyThis(key: Key, log0: seq<Applied>, data0: map<Key, Entry>,
                           log: seq<Applied>, data: map<Key, Entry>, version: Version) {
    |log| == |log0| + 1 && log[|log0|].before == Held(data0, key) && log[|log0|].version == version &&
    data == data0[key := Entry(log[|log0|].stored, version)]
  }

  ghost predicate AtMostThis(key: Key, log0: seq<Applied>, data0: map<Key, Entry>,
                             log: seq<Applied>, data: map<Key, Entry>) {
    (log == log0 && data == data0) || exists version :: OnlyThis(key, log0, data0, log, data, version)
  }

  lemma OneMore(f: Option<Value> -> Result<Value>, key: Key, log0: seq<Applied>, log: seq<Applied>, a: Applied)
    requires Correct(f, key, log0, log) && a.key == key && f(a.before) == Ok(a.stored)
    ensures Correct(f, key, log0, log + [a])
  {
  }

  lemma StillComputed(f: Option<Value> -> Result<Value>, was: map<Version, Value>, written: map<Version, Value>,
                      version: Version, value: Value)
    requires Computed(f, was, version, value) && Extends(written, was)
    ensures Computed(f, written, version, value)
  {
  }

  /** A stored version that is this client's own was stored by this client. */
  lemma OwnVersionWasStored(c: Server, key: Key, version: Version)
    requires c.Valid() && key in c.data && c.data[key].version == version && version !in c.foreign
    ensures InLog(c.log, version)
  {
  }

  /** None of the requests since `calls0` was refused for lack of rights. */
  ghost predicate Allowed(calls0: seq<Call>, calls: seq<Call>) {
    |calls0| <= |calls| && calls[..|calls0|] == calls0 && forall i :: |calls0| <= i < |calls| ==> !calls[i].fate.Denied?
  }

  /** How the requests since `calls0` ended: a refusal ends them all, and is reported as what it is. */
  ghost predicate Reports(f: Option<Value> -> Result<Value>, key: Key, calls0: seq<Call>, calls: seq<Call>,
                          outcome: Outcome) {
    |calls| > |calls0| &&
    var last := calls[|calls| - 1];
    match outcome
    case AuthError(call) =>
      Allowed(calls0, calls[..|calls| - 1]) && last.key == key && last.fate.Denied? && call == Name(last.which)
    case UpdateError(error) =>
      Allowed(calls0, calls) && last.key == key && last.fate.Answered? && f(last.held) == Err(error)
    case Nil =>
      Allowed(calls0, calls)
  }

  /** What one more request means for the report. */
  lemma LastCall(f: Option<Value> -> Result<Value>, calls0: seq<Call>, calls1: seq<Call>, calls: seq<Call>,
                 which: Method, key: Key)
    requires Allowed(calls0, calls1) && Asked(calls1, calls, which, key)
    ensures calls[|calls1|].fate.Denied? ==> Reports(f, key, calls0, calls, AuthError(Name(which)))
    ensures !calls[|calls1|].fate.Denied? ==> Allowed(calls0, calls)
  {
    assert calls[..|calls0|] == calls[..|calls1|][..|calls0|];
    assert calls[..|calls| - 1] == calls1;
    if !calls[|calls1|].fate.Denied? {
      forall i | |calls0| <= i < |calls| ensures !calls[i].fate.Denied? {
        if i < |calls1| { assert calls[i] == calls1[i]; }
      }
    }
  }

  /** Nothing of this attempt's own has happened, or exactly its one Set. */
  ghost predicate Undisturbed(c: Server, key: Key, oldVersion: Version, newVersion: Version,
                              log0: seq<Applied>, data0: map<Key, Entry>)
    reads c
  {
    Quiet(c.turns) && oldVersion != newVersion &&
    ((c.log == log0 && c.data == data0 && c.Matches(key, oldVersion)) ||
     OnlyThis(key, log0, data0, c.log, c.data, newVersion))
  }

  lemma UndisturbedIsOne(c: Server, key: Key, oldVersion: Version, newVersion: Version,
                         log0: seq<Applied>, data0: map<Key, Entry>)
    requires Undisturbed(c, key, oldVersion, newVersion, log0, data0)
    ensures AtMostThis(key, log0, data0, c.log, c.data) && Quiet(c.turns)
  {
    if c.log != log0 || c.data != data0 {
      assert OnlyThis(key, log0, data0, c.log, c.data, newVersion);
    }
  }

  /** One Set, with what it means for the log. */
  method TrySet(c: Server, key: Key, f: Option<Value> -> Result<Value>, value: Value, oldVersion: Version,
                newVersion: Version, ghost log0: seq<Applied>, ghost data0: map<Key, Entry>, ghost calls0: seq<Call>)
    returns (answer: SetAnswer)
    requires c.Valid() && c.CanStore(value, oldVersion, newVersion) && Computed(f, c.written, oldVersion, value)
    requires Correct(f, key, log0, c.log) && Allowed(calls0, c.calls)
    modifies c`data, c`unused, c`turns, c`foreign, c`written, c`log, c`calls
    ensures c.Valid() && c.CanStore(value, oldVersion, newVersion) && Computed(f, c.written, oldVersion, value)
    ensures answer.SetDenied? ==> Reports(f, key, calls0, c.calls, AuthError("set"))
    ensures !answer.SetDenied? ==> Allowed(calls0, c.calls) && |calls0| < |c.calls|
    ensures answer.SetNotFound? && f(None).Err? ==> Reports(f, key, calls0, c.calls, UpdateError(f(None).error))
    ensures Extends(c.written, old(c.written)) && c.unused >= old(c.unused)
    ensures Correct(f, key, log0, c.log) && (c.log == old(c.log) || |c.log| == |old(c.log)| + 1)
    ensures answer.Stored? ==> |c.log| == |old(c.log)| + 1
    ensures answer.Conflict? ==> key in c.data && c.data[key].version == answer.expected && c.log == old(c.log)
    ensures answer.SetNotFound? ==> key !in c.data && c.log == old(c.log)
    ensures |c.turns| <= |old(c.turns)| && (old(c.turns) != [] ==> |c.turns| < |old(c.turns)|)
    ensures old(NeverDenied(c.turns)) ==> NeverDenied(c.turns) && !answer.SetDenied?
    ensures old(c.turns) == [] ==> !answer.SetFailed? && !answer.SetDenied?
    ensures old(c.turns) == [] && old(c.Matches(key, oldVersion)) ==> answer.Stored?
    ensures old(Undisturbed(c, key, oldVersion, newVersion, log0, data0)) ==>
      Undisturbed(c, key, oldVersion, newVersion, log0, data0) && !answer.SetNotFound? &&
      AtMostThis(key, log0, data0, c.log, c.data) &&
      (answer.Conflict? ==> answer.expected == newVersion)
  {
    ghost var log1, written1, calls1 := c.log, c.written, c.calls;
    ghost var calm := Undisturbed(c, key, oldVersion, newVersion, log0, data0);
    answer := c.Set(key, value, oldVersion, newVersion);
    LastCall(f, calls0, calls1, c.calls, SetRequest, key);
    StillComputed(f, written1, c.written, oldVersion, value);
    if c.log != log1 {
      ghost var before :| c.log == log1 + [Applied(key, before, value, newVersion)] &&
        Names(written1, oldVersion, before);
      OneMore(f, key, log0, log1, Applied(key, before, value, newVersion));
    }
    if calm { UndisturbedIsOne(c, key, oldVersion, newVersion, log0, data0); }
  }

  /** A new version for creating a key that is gone. */
  method NewAttempt(c: Server, key: Key, f: Option<Value> -> Result<Value>, ghost log0: seq<Applied>)
    returns (v: Version)
    requires c.Valid() && f(None).Ok? && key !in c.data && Correct(f, key, log0, c.log)
    modifies c`unused
    ensures c.Valid() && c.CanStore(f(None).value, ZERO, v) && Computed(f, c.written, ZERO, f(None).value)
    ensures c.Matches(key, ZERO) && !InLog(c.log, v)
  {
    v := c.NewVersion();
    assert Names(c.written, ZERO, None);
  }

  /**
   * The inner loop: one new version, tried until it is settled. None means that another value has been
   * stored and the caller must read again.
   */
  method SetUntilSettled(c: Server, key: Key, f: Option<Value> -> Result<Value>, value: Value, oldVersion: Version,
                         ghost log0: seq<Applied>, ghost data0: map<Key, Entry>, ghost calls0: seq<Call>)
    returns (outcome: Option<Outcome>)
    requires c.Valid() && Computed(f, c.written, oldVersion, value) && (oldVersion != ZERO ==> oldVersion in c.written)
    requires Correct(f, key, log0, c.log)
    requires c.Matches(key, oldVersion)
    requires Allowed(calls0, c.calls) && |calls0| < |c.calls|
    modifies c`data, c`unused, c`turns, c`foreign, c`written, c`log, c`calls
    ensures c.Valid() && Correct(f, key, log0, c.log) && |c.turns| <= |old(c.turns)|
    ensures outcome.None? ==> Allowed(calls0, c.calls) && |calls0| < |c.calls|
    ensures outcome.Some? ==> Reports(f, key, calls0, c.calls, outcome.value)
    ensures outcome == Some(Nil) ==> |c.log| > |old(c.log)|
    ensures old(NeverDenied(c.turns)) ==>
      NeverDenied(c.turns) && (outcome.Some? ==> !outcome.value.AuthError?)
    ensures outcome.Some? && outcome.value.AuthError? ==> outcome.value.call == "set"
    ensures outcome.Some? && outcome.value.UpdateError? ==> f(None) == Err(outcome.value.error)
    ensures old(c.turns) == [] ==> outcome.Some?
    ensures old(Quiet(c.turns)) && old(c.log) == log0 && old(c.data) == data0 ==>
      outcome.Some? && !outcome.value.UpdateError? && AtMostThis(key, log0, data0, c.log, c.data)
  {
    var newValue, old_uuid := value, oldVersion;
    var new_uuid := c.NewVersion();
    ghost var calm := Quiet(c.turns) && c.log == log0 && c.data == data0;
    while true
      invariant c.Valid() && c.CanStore(newValue, old_uuid, new_uuid) && Computed(f, c.written, old_uuid, newValue)
      invariant Correct(f, key, log0, c.log) && |c.turns| <= |old(c.turns)|
      invariant |c.log| >= |old(c.log)| && (InLog(c.log, new_uuid) ==> |c.log| > |old(c.log)|)
      invariant old(NeverDenied(c.turns)) ==> NeverDenied(c.turns)
      invariant old(c.turns) == [] ==> c.Matches(key, old_uuid)
      invariant calm ==> Undisturbed(c, key, old_uuid, new_uuid, log0, data0)
      invariant Allowed(calls0, c.calls) && |calls0| < |c.calls|
      decreases |c.turns|, if c.Matches(key, old_uuid) then 0 else 1
    {
      var answer := TrySet(c, key, f, newValue, old_uuid, new_uuid, log0, data0, calls0);
      match answer
      case SetDenied => return Some(AuthError("set"));
      case Conflict(expected) =>
        if expected == new_uuid {
          OwnVersionWasStored(c, key, new_uuid);
          return Some(Nil);
        }
        return None;
      case SetNotFound =>
        var updated := f(None);
        if updated.Err? { return Some(UpdateError(updated.error)); }
        newValue := updated.value;
        old_uuid := ZERO;
        new_uuid := NewAttempt(c, key, f, log0);
      case SetFailed =>
      case Stored => return Some(Nil);
    }
  }

  /** What a Get found, as the version to name in the Set and the value to compute from. */
  predicate Seen(c: Server, key: Key, version: Version, before: Option<Value>)
    reads c
  {
    c.Matches(key, version) && before == Held(c.data, key)
  }

  lemma SeenIsComputed(c: Server, key: Key, f: Option<Value> -> Result<Value>, version: Version, before: Option<Value>)
    requires c.Valid() && Seen(c, key, version, before) && f(before).Ok?
    ensures Computed(f, c.written, version, f(before).value) && (version != ZERO ==> version in c.written)
  {
  }

  /**
   * Every Set that took effect stored the update of what the key held at that instant; a nil return means
   * at least one did. When nobody else writes, exactly one did, or none and the update function refused.
   */
  method UpdateValue(c: Server, key: Key, f: Option<Value> -> Result<Value>) returns (outcome: Outcome)
    requires c.Valid()
    modifies c`data, c`unused, c`turns, c`foreign, c`written, c`log, c`calls
    ensures c.Valid() && Correct(f, key, old(c.log), c.log)
    ensures outcome == Nil ==> |c.log| > |old(c.log)|
    ensures Reports(f, key, old(c.calls), c.calls, outcome)
    ensures old(c.turns) != [] && old(c.turns[0].fate).Denied? ==> outcome == AuthError("get")
    ensures outcome.AuthError? ==> !old(NeverDenied(c.turns))
    ensures old(Quiet(c.turns)) ==> AtMostThis(key, old(c.log), old(c.data), c.log, c.data)
    ensures old(Quiet(c.turns)) && outcome.UpdateError? ==>
      c.log == old(c.log) && old(f(Held(c.data, key))) == Err(outcome.error)
  {
    ghost var log0, data0, calls0 := c.log, c.data, c.calls;
    while true
      invariant c.Valid() && Correct(f, key, log0, c.log) && Allowed(calls0, c.calls)
      invariant old(c.turns) != [] && old(c.turns[0].fate).Denied? ==> c.turns == old(c.turns)
      invariant old(NeverDenied(c.turns)) ==> NeverDenied(c.turns)
      invariant old(Quiet(c.turns)) ==> Quiet(c.turns) && c.log == log0 && c.data == data0
      decreases |c.turns|
    {
      ghost var calls1 := c.calls;
      var answer := c.Get(key);
      LastCall(f, calls0, calls1, c.calls, GetRequest, key);
      var newValue, old_uuid;
      match answer {
        case GetNotFound =>
          var updated := f(None);
          if updated.Err? { return UpdateError(updated.error); }
          newValue, old_uuid := updated.value, ZERO;
        case Found(entry) =>
          var updated := f(Some(entry.value));
          if updated.Err? { return UpdateError(updated.error); }
          newValue, old_uuid := updated.value, entry.version;
        case GetDenied => return AuthError("get");
        case GetFailed => continue;
      }
      SeenIsComputed(c, key, f, old_uuid, Held(c.data, key));
      var settled := SetUntilSettled(c, key, f, newValue, old_uuid, log0, data0, calls0);
      if settled.Some? { return settled.value; }
    }
  }
}
