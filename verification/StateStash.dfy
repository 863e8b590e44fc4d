/** The social login states a session remembers: a dictionary, in the order its keys were added. */
module StateStash {
  import opened Options

  const MAX_STATES: nat := 10
  const STATE_TTL: real := 600.0

  type Payload = string

  datatype Entry = Entry(id: string, payload: Payload, ts: real)

  predicate Distinct(states: seq<Entry>) {
    forall i, j :: 0 <= i < j < |states| ==> states[i].id != states[j].id
  }

  predicate Beats(a: Entry, b: Entry, rev: bool) {
    if rev then a.ts > b.ts else b.ts > a.ts
  }

  /** The place of the oldest entry, or with `rev` of the newest; the first of several. */
  function Extreme(states: seq<Entry>, rev: bool): (k: nat)
    requires states != []
    ensures k < |states|
    ensures forall j :: 0 <= j < |states| ==> !Beats(states[j], states[k], rev)
    ensures forall j :: 0 <= j < k ==> Beats(states[k], states[j], rev)
  {
    var last := |states| - 1;
    if last == 0 then 0
    else
      var k := Extreme(states[..last], rev);
      assert forall j :: 0 <= j < last ==> states[..last][j] == states[j];
      if Beats(states[last], states[k], rev) then last else k
  }

  predicate Expired(e: Entry, now: real) {
    now - e.ts > STATE_TTL
  }

  function Live(states: seq<Entry>, now: real): seq<Entry> {
    if states == [] then []
    else
      var rest := Live(states[..|states| - 1], now);
      if Expired(states[|states| - 1], now) then rest else rest + [states[|states| - 1]]
  }

  function Without(states: seq<Entry>, k: nat): seq<Entry>
    requires k < |states|
  {
    states[..k] + states[k + 1..]
  }

  /** At most one entry goes, and only if it has an id that counts as true. */
  function Trimmed(states: seq<Entry>): seq<Entry> {
    if |states| > MAX_STATES && states[Extreme(states, false)].id != "" then Without(states, Extreme(states, false))
    else states
  }

  function Find(states: seq<Entry>, id: string): (r: Option<nat>)
    ensures r.Some? ==> r.value < |states| && states[r.value].id == id
    ensures r.None? ==> forall e :: e in states ==> e.id != id
  {
    if states == [] then None
    else
      var r := Find(states[1..], id);
      if states[0].id == id then Some(0) else if r.Some? then Some(r.value + 1) else None
  }

  /** Assigning to a key that is there keeps its place. */
  function Put(states: seq<Entry>, e: Entry): seq<Entry> {
    var k := Find(states, e.id);
    if k.Some? then states[k.value := e] else states + [e]
  }

  datatype Op =
    | Stash(id: string, payload: Payload, now: real)
    | Unstash(id: string, now: real)
    | UnstashLast(now: real)

  /** The states afterwards, and the entry handed out. */
  function Step(states: seq<Entry>, op: Op): (seq<Entry>, Option<Entry>) {
    match op
    case Stash(id, payload, now) => (Put(Trimmed(Live(states, now)), Entry(id, payload, now)), None)
    case Unstash(id, now) =>
      var k := Find(states, id);
      if k.None? then (states, None)
      else (Without(states, k.value), if Expired(states[k.value], now) then None else Some(states[k.value]))
    case UnstashLast(_) =>
      if states == [] then (states, None)
      else
        var e := states[Extreme(states, true)];
        (if e.id == "" then states else Without(states, Extreme(states, true)), Some(e))
  }

  class Session {
    var states: seq<Entry>

    ghost predicate Valid()
      reads this
    {
      Distinct(states)
    }

    constructor ()
      ensures Valid() && states == []
    {
      states := [];
    }

    /** `get_oldest_state`. */
    method GetOldest(rev: bool) returns (id: Option<string>, payload: Option<Payload>)
      ensures if states == [] then id == None && payload == None
        else id == Some(states[Extreme(states, rev)].id) && payload == Some(states[Extreme(states, rev)].payload)
    {
      id, payload := None, None;
      var oldest: Option<real> := None;
      for i := 0 to |states|
        invariant oldest.None? <==> i == 0
        invariant i == 0 ==> id == None && payload == None
        invariant i > 0 ==> var e := states[..i][Extreme(states[..i], rev)];
          oldest == Some(e.ts) && id == Some(e.id) && payload == Some(e.payload)
      {
        assert states[..i + 1][..i] == states[..i];
        var ts := states[i].ts;
        if oldest.None? || (rev && ts > oldest.value) || (!rev && oldest.value > ts) {
          oldest, id, payload := Some(ts), Some(states[i].id), Some(states[i].payload);
        }
      }
      assert states[..|states|] == states;
    }

    /** `gc_states`. */
    method Gc(now: real)
      requires Valid()
      modifies this
      ensures Valid() && states == Trimmed(Live(old(states), now))
    {
      var kept: seq<Entry> := [];
      for i := 0 to |states|
        invariant kept == Live(states[..i], now) && states == old(states)
      {
        assert states[..i + 1][..i] == states[..i];
        if !(now - states[i].ts > STATE_TTL) {
          kept := kept + [states[i]];
        }
      }
      assert states[..|states|] == states;
      LiveDistinct(states, now);
      states := kept;
      if |states| > MAX_STATES {
        var id, _ := GetOldest(false);
        if id != None && id.value != "" {
          FindDistinct(states, Extreme(states, false));
          Delete(id.value);
        }
      }
    }

    /** `del states[id]`. */
    method Delete(id: string)
      requires Valid() && Find(states, id).Some?
      modifies this
      ensures Valid() && states == Without(old(states), Find(old(states), id).value)
    {
      WithoutDistinct(states, Find(states, id).value);
      states := states[..Find(states, id).value] + states[Find(states, id).value + 1..];
    }

    /** `stash_state`. */
    method StashState(payload: Payload, id: string, now: real)
      requires Valid()
      modifies this
      ensures Valid() && states == Step(old(states), Stash(id, payload, now)).0
      ensures forall e :: e in states <==>
        e == Entry(id, payload, now) || (e.id != id && e in Trimmed(Live(old(states), now)))
    {
      Gc(now);
      PutMeans(states, Entry(id, payload, now));
      states := Put(states, Entry(id, payload, now));
    }

    /** `unstash_state`. */
    method UnstashState(id: string, now: real) returns (r: Option<Payload>)
      requires Valid()
      modifies this
      ensures Valid() && states == Step(old(states), Unstash(id, now)).0
      ensures r == Handed(Step(old(states), Unstash(id, now)).1)
      ensures forall e :: e in states <==> e in old(states) && e.id != id
      ensures r.None? <==> forall e :: e in old(states) && e.id == id ==> now - e.ts > 600.0
      ensures r.Some? ==> exists e :: e in old(states) && e.id == id && r == Some(e.payload)
    {
      r := None;
      UnstashMeans(states, id, now);
      var k := Find(states, id);
      if k.Some? {
        if !(now - states[k.value].ts > STATE_TTL) {
          r := Some(states[k.value].payload);
        }
        Delete(id);
      }
    }

    /** `unstash_last_state`. */
    method UnstashLastState(now: real) returns (r: Option<Payload>)
      requires Valid()
      modifies this
      ensures Valid() && states == Step(old(states), UnstashLast(now)).0
      ensures r == Handed(Step(old(states), UnstashLast(now)).1)
      ensures r.None? <==> old(states) == []
      ensures r.Some? ==> exists e ::
        e in old(states) && r == Some(e.payload) && forall o :: o in old(states) ==> o.ts <= e.ts
    {
      if states != [] {
        NewestIs(states);
      }
      var id, payload := GetOldest(true);
      if id != None && id.value != "" {
        FindDistinct(states, Extreme(states, true));
        var _ := UnstashState(id.value, now);
      }
      r := payload;
    }
  }

  /** Taking a state out by its id: it goes, nothing else does, and it is handed out if young enough. */
  lemma UnstashMeans(states: seq<Entry>, id: string, now: real)
    requires Distinct(states)
    ensures var (next, handed) := Step(states, Unstash(id, now));
      && (forall e :: e in next <==> e in states && e.id != id)
      && (handed.None? <==> forall e :: e in states && e.id == id ==> now - e.ts > 600.0)
      && (handed.Some? ==> handed.value in states && handed.value.id == id)
  {
    var k := Find(states, id);
    if k.Some? {
      WithoutDistinct(states, k.value);
      assert states[k.value] in states;
      forall e | e in states && e.id == id
        ensures e == states[k.value]
      {
        var i :| 0 <= i < |states| && states[i] == e;
      }
    }
  }

  lemma NewestIs(states: seq<Entry>)
    requires states != []
    ensures forall o :: o in states ==> o.ts <= states[Extreme(states, true)].ts
  {
    forall o | o in states
      ensures o.ts <= states[Extreme(states, true)].ts
    {
      var i :| 0 <= i < |states| && states[i] == o;
      assert !Beats(states[i], states[Extreme(states, true)], true);
    }
  }

  lemma PutMeans(states: seq<Entry>, e: Entry)
    requires Distinct(states)
    ensures Distinct(Put(states, e)) && forall o :: o in Put(states, e) <==> o == e || (o in states && o.id != e.id)
  {
    var k, next := Find(states, e.id), Put(states, e);
    if k.Some? {
      assert next[k.value] == e;
      forall o | o in states && o.id != e.id
        ensures o in next
      {
        var i :| 0 <= i < |states| && states[i] == o;
        assert next[i] == o;
      }
    }
  }

  /** Collecting: what stays is young enough; what is young enough and goes nevertheless is a single
      entry, older than all that stay, which has an id and leaves at least ten; and if more than ten
      stay and none of them had to go, the oldest has no id. */
  lemma CollectMeans(states: seq<Entry>, now: real)
    requires Distinct(states)
    ensures var kept := Trimmed(Live(states, now));
      && (forall e :: e in kept ==> e in states && now - e.ts <= 600.0)
      && (forall e :: e in states && now - e.ts <= 600.0 && e !in kept ==>
            |kept| >= 10 && e.id != "" && forall o :: o in kept ==> e.ts <= o.ts)
      && (forall e, o | e in states && o in states && e !in kept && o !in kept ::
            now - e.ts <= 600.0 && now - o.ts <= 600.0 ==> e == o)
      && (|kept| > 10 && (forall e :: e in states && now - e.ts <= 600.0 ==> e in kept) ==>
            exists e :: e in kept && e.id == "" && forall o :: o in kept ==> e.ts <= o.ts)
  {
    LiveDistinct(states, now);
    var live := Live(states, now);
    if |live| > MAX_STATES {
      var k := Extreme(live, false);
      assert live[k] in live;
      forall o | o in live
        ensures live[k].ts <= o.ts
      {
        var i :| 0 <= i < |live| && live[i] == o;
        assert !Beats(live[i], live[k], false);
      }
      WithoutDistinct(live, k);
    }
  }

  function Handed(e: Option<Entry>): Option<Payload> {
    if e.Some? then Some(e.value.payload) else None
  }

  // ---------- Facts about the dictionary ----------

  lemma {:induction false} FindDistinct(states: seq<Entry>, k: nat)
    requires Distinct(states) && k < |states|
    ensures Find(states, states[k].id) == Some(k)
  {
    if k > 0 {
      assert states[1..][k - 1] == states[k];
      FindDistinct(states[1..], k - 1);
    }
  }

  lemma WithoutDistinct(states: seq<Entry>, k: nat)
    requires Distinct(states) && k < |states|
    ensures Distinct(Without(states, k))
    ensures forall e :: e in Without(states, k) <==> e in states && e != states[k]
  {
    var less := Without(states, k);
    assert forall i :: 0 <= i < |less| ==> less[i] == states[if i < k then i else i + 1];
    forall e | e in states && e != states[k]
      ensures e in less
    {
      var i :| 0 <= i < |states| && states[i] == e;
      assert less[if i < k then i else i - 1] == e;
    }
  }

  lemma {:induction false} LiveDistinct(states: seq<Entry>, now: real)
    requires Distinct(states)
    ensures Distinct(Live(states, now))
    ensures forall e :: e in Live(states, now) <==> e in states && !Expired(e, now)
  {
    if states != [] {
      var n := |states| - 1;
      var rest := Live(states[..n], now);
      LiveDistinct(states[..n], now);
      assert states == states[..n] + [states[n]];
      forall i | 0 <= i < |rest|
        ensures rest[i].id != states[n].id
      {
        assert rest[i] in states[..n];
      }
    }
  }

  // ---------- A stack of recent states ----------

  predicate Rising(states: seq<Entry>) {
    forall i, j :: 0 <= i < j < |states| ==> states[i].ts < states[j].ts
  }

  /** Older entries come first, and none is newer than `last`. */
  predicate Ordered(states: seq<Entry>, last: real) {
    && Distinct(states) && |states| <= MAX_STATES + 1 && Rising(states)
    && (forall i :: 0 <= i < |states| ==> states[i].ts <= last && states[i].id != "")
  }

  /** The clock moves on, and every new state gets an id of its own that is not empty. */
  predicate Allowed(states: seq<Entry>, last: real, op: Op) {
    op.now > last && (op.Stash? ==> op.id != "" && forall e :: e in states ==> e.id != op.id)
  }

  /** The simple form: entries leave at the old end, by their id, or at the new end. */
  function Simple(states: seq<Entry>, op: Op): seq<Entry> {
    match op
    case Stash(id, payload, now) =>
      var live := Fresh(states, now);
      (if |live| > MAX_STATES then live[1..] else live) + [Entry(id, payload, now)]
    case Unstash(id, _) =>
      var k := Find(states, id);
      if k.Some? then Without(states, k.value) else states
    case UnstashLast(_) => if states == [] then [] else states[..|states| - 1]
  }

  function Fresh(states: seq<Entry>, now: real): seq<Entry> {
    states[Stale(states, now)..]
  }

  /** How many entries at the old end have expired. */
  function Stale(states: seq<Entry>, now: real): (k: nat)
    ensures k <= |states|
    ensures forall i :: 0 <= i < k ==> Expired(states[i], now)
    ensures k < |states| ==> !Expired(states[k], now)
  {
    if states == [] || !Expired(states[0], now) then 0 else Stale(states[1..], now) + 1
  }

  lemma {:induction false} LiveSuffix(states: seq<Entry>, now: real, k: nat)
    requires k <= |states|
    requires forall i :: 0 <= i < |states| ==> (Expired(states[i], now) <==> i < k)
    ensures Live(states, now) == states[k..]
  {
    if states != [] {
      var n := |states| - 1;
      LiveSuffix(states[..n], now, if k <= n then k else n);
      assert k <= n ==> states[k..] == states[..n][k..] + [states[n]];
    }
  }

  lemma LiveIsFresh(states: seq<Entry>, now: real)
    requires Rising(states)
    ensures Live(states, now) == Fresh(states, now)
  {
    LiveSuffix(states, now, Stale(states, now));
  }

  /** Collecting drops entries at the old end. */
  lemma CollectStep(states: seq<Entry>, now: real) returns (dropped: nat)
    requires Rising(states) && forall e :: e in states ==> e.id != ""
    ensures var stale := Stale(states, now);
      && dropped == stale + (if |states| - stale > MAX_STATES then 1 else 0)
      && dropped <= |states| && Trimmed(Live(states, now)) == states[dropped..]
      && (if |Fresh(states, now)| > MAX_STATES then Fresh(states, now)[1..] else Fresh(states, now))
         == states[dropped..]
  {
    hide Live, Extreme;
    LiveIsFresh(states, now);
    var stale := Stale(states, now);
    var live := states[stale..];
    dropped := stale;
    if |live| > MAX_STATES {
      FirstIsOldest(live);
      assert live[0] == states[stale] && live[0] in states;
      dropped := stale + 1;
      assert Without(live, 0) == live[1..] == states[dropped..];
    }
  }

  lemma AppendOrdered(states: seq<Entry>, last: real, dropped: nat, e: Entry)
    requires Ordered(states, last) && dropped <= |states| && |states| - dropped <= MAX_STATES
    requires e.ts > last && e.id != "" && forall o :: o in states ==> o.id != e.id
    ensures Ordered(states[dropped..] + [e], e.ts)
    ensures Put(states[dropped..], e) == states[dropped..] + [e]
    ensures forall o :: o in states[dropped..] ==> o in states
  {
    hide Find;
    var kept := states[dropped..];
    var next := kept + [e];
    assert forall i :: 0 <= i < |kept| ==> next[i] == states[dropped + i];
    assert Find(kept, e.id) == None;
  }

  /** What a stash leaves is newer, and fits. */
  lemma StashStep(states: seq<Entry>, last: real, id: string, payload: Payload, now: real)
    requires Ordered(states, last) && Allowed(states, last, Stash(id, payload, now))
    ensures Step(states, Stash(id, payload, now)).0 == Simple(states, Stash(id, payload, now))
    ensures Ordered(Simple(states, Stash(id, payload, now)), now)
    ensures forall e :: e in Simple(states, Stash(id, payload, now)) ==> e in states || e == Entry(id, payload, now)
  {
    hide Live, Put, Trimmed;
    var dropped := CollectStep(states, now);
    AppendOrdered(states, last, dropped, Entry(id, payload, now));
  }

  lemma FirstIsOldest(states: seq<Entry>)
    requires states != [] && Rising(states)
    ensures Extreme(states, false) == 0 && Extreme(states, true) == |states| - 1
  {
    var first, n := Extreme(states, false), |states| - 1;
    assert !Beats(states[0], states[first], false);
    assert !Beats(states[n], states[Extreme(states, true)], true);
  }

  lemma WithoutOrdered(states: seq<Entry>, last: real, k: nat, now: real)
    requires Ordered(states, last) && k < |states| && now > last
    ensures Ordered(Without(states, k), now)
  {
    WithoutDistinct(states, k);
  }

  /** The loops over running variables refine the stack: the oldest entry is the first one and the
      newest the last. */
  lemma StashIsStack(states: seq<Entry>, last: real, op: Op)
    requires Ordered(states, last) && Allowed(states, last, op)
    ensures Step(states, op).0 == Simple(states, op) && Ordered(Simple(states, op), op.now)
    ensures forall e :: e in Simple(states, op) ==> e in states || (op.Stash? && e == Entry(op.id, op.payload, op.now))
    ensures op.UnstashLast? && states != [] ==> Step(states, op).1 == Some(states[|states| - 1])
  {
    hide Live, Put, Trimmed, Fresh, Ordered;
    match op {
      case Stash(id, payload, now) => StashStep(states, last, id, payload, now);
      case Unstash(id, now) => UnstashStep(states, last, id, now);
      case UnstashLast(now) => UnstashLastStep(states, last, now);
    }
  }

  lemma UnstashStep(states: seq<Entry>, last: real, id: string, now: real)
    requires Ordered(states, last) && now > last
    ensures Ordered(Simple(states, Unstash(id, now)), now)
    ensures forall e :: e in Simple(states, Unstash(id, now)) ==> e in states
  {
    if Find(states, id).Some? {
      WithoutDistinct(states, Find(states, id).value);
      WithoutOrdered(states, last, Find(states, id).value, now);
    }
  }

  lemma UnstashLastStep(states: seq<Entry>, last: real, now: real)
    requires Ordered(states, last) && now > last
    ensures Step(states, UnstashLast(now)).0 == Simple(states, UnstashLast(now))
    ensures Ordered(Simple(states, UnstashLast(now)), now)
    ensures forall e :: e in Simple(states, UnstashLast(now)) ==> e in states
    ensures states != [] ==> Step(states, UnstashLast(now)).1 == Some(states[|states| - 1])
  {
    if states != [] {
      var n := |states| - 1;
      FirstIsOldest(states);
      WithoutDistinct(states, n);
      WithoutOrdered(states, last, n, now);
      assert Without(states, n) == states[..n];
    }
  }

  // ---------- Runs ----------

  function Run(states: seq<Entry>, ops: seq<Op>): seq<Entry>
    decreases |ops|
  {
    if ops == [] then states else Run(Step(states, ops[0]).0, ops[1..])
  }

  function HandedOut(states: seq<Entry>, ops: seq<Op>): seq<Entry>
    decreases |ops|
  {
    if ops == [] then []
    else
      var (next, handed) := Step(states, ops[0]);
      (if handed.Some? then [handed.value] else []) + HandedOut(next, ops[1..])
  }

  predicate AllAllowed(states: seq<Entry>, last: real, ops: seq<Op>)
    decreases |ops|
  {
    ops == [] || (Allowed(states, last, ops[0]) && AllAllowed(Step(states, ops[0]).0, ops[0].now, ops[1..]))
  }

  function Stashes(ops: seq<Op>): nat {
    if ops == [] then 0 else Stashes(ops[1..]) + if ops[0].Stash? then 1 else 0
  }

  function LastTime(last: real, ops: seq<Op>): real {
    if ops == [] then last else ops[|ops| - 1].now
  }

  lemma FewEntries(states: seq<Entry>, last: real)
    requires Ordered(states, last)
    ensures |states| <= MAX_STATES + 1 && Rising(states) && forall e :: e in states ==> e.ts <= last && e.id != ""
  {
  }

  /** With a rising clock and a fresh id for every state, they stay in the order of their age. */
  lemma {:induction false} RunOrdered(states: seq<Entry>, last: real, ops: seq<Op>)
    requires Ordered(states, last) && AllAllowed(states, last, ops)
    ensures Ordered(Run(states, ops), LastTime(last, ops))
    decreases |ops|
  {
    hide Step, Simple, Ordered, Allowed;
    FewEntries(states, last);
    if ops != [] {
      StashIsStack(states, last, ops[0]);
      RunOrdered(Step(states, ops[0]).0, ops[0].now, ops[1..]);
    }
  }

  // ---------- How many there can be ----------

  predicate Bounded(states: seq<Entry>) {
    Distinct(states) && |states| <= MAX_STATES + 1 && forall e :: e in states ==> e.id != ""
  }

  lemma {:induction false} LiveNoLonger(states: seq<Entry>, now: real)
    ensures |Live(states, now)| <= |states|
  {
    if states != [] {
      LiveNoLonger(states[..|states| - 1], now);
    }
  }

  lemma StepBounded(states: seq<Entry>, op: Op)
    requires Bounded(states) && (op.Stash? ==> op.id != "")
    ensures Bounded(Step(states, op).0)
  {
    hide Live, Extreme, Find;
    match op {
      case Stash(id, payload, now) =>
        LiveDistinct(states, now);
        LiveNoLonger(states, now);
        var live := Live(states, now);
        if |live| > MAX_STATES {
          WithoutDistinct(live, Extreme(live, false));
        }
      case Unstash(id, _) =>
        if Find(states, id).Some? {
          WithoutDistinct(states, Find(states, id).value);
        }
      case UnstashLast(_) =>
        if states != [] {
          WithoutDistinct(states, Extreme(states, true));
        }
    }
  }

  /** Never more than `MAX_STATES + 1` states, at any clock and with ids used again, as long as none is
      stored under the empty id. */
  lemma {:induction false} RunBounded(states: seq<Entry>, ops: seq<Op>)
    requires Bounded(states) && forall op :: op in ops ==> op.Stash? ==> op.id != ""
    ensures Bounded(Run(states, ops))
    decreases |ops|
  {
    hide Step, Bounded;
    if ops != [] {
      assert ops[0] in ops;
      StepBounded(states, ops[0]);
      RunBounded(Step(states, ops[0]).0, ops[1..]);
    }
  }

  function Name(i: nat): (id: string)
    ensures |id| == i
  {
    seq(i, _ => 'a')
  }

  /** States number `k` to `n` stashed at one moment, the first of all under the empty id. */
  function Flood(k: nat, n: nat, payload: Payload, now: real): seq<Op>
    requires k <= n
  {
    seq(n - k, i requires 0 <= i < n - k => Stash(Name(k + i), payload, now))
  }

  function Flooded(n: nat, payload: Payload, now: real): (states: seq<Entry>)
    ensures |states| == n
  {
    seq(n, i requires 0 <= i < n => Entry(Name(i), payload, now))
  }

  /** With one there is no bound: while it is the oldest, nothing is collected before it expires. */
  lemma {:induction false} EmptyIdUnbounded(k: nat, n: nat, payload: Payload, now: real)
    requires k <= n
    ensures Run(Flooded(k, payload, now), Flood(k, n, payload, now)) == Flooded(n, payload, now)
    decreases n - k
  {
    hide Step, Flood, Flooded;
    FloodTail(k, n, payload, now);
    if k < n {
      FloodStep(k, payload, now);
      EmptyIdUnbounded(k + 1, n, payload, now);
    }
  }

  lemma FloodTail(k: nat, n: nat, payload: Payload, now: real)
    requires k <= n
    ensures var ops := Flood(k, n, payload, now);
      if k == n then ops == [] else ops == [Stash(Name(k), payload, now)] + Flood(k + 1, n, payload, now)
  {
  }

  lemma FloodStep(k: nat, payload: Payload, now: real)
    ensures Step(Flooded(k, payload, now), Stash(Name(k), payload, now)).0 == Flooded(k + 1, payload, now)
  {
    var states := Flooded(k, payload, now);
    LiveSuffix(states, now, 0);
    hide Live, Find;
    if states != [] {
      assert !Beats(states[Extreme(states, false)], states[0], false);
    }
  }

  /** What is handed out was there, and is gone. */
  lemma HandedIsGone(states: seq<Entry>, last: real, op: Op)
    requires Ordered(states, last) && Allowed(states, last, op)
    ensures Step(states, op).1.Some? ==>
      Step(states, op).1.value in states && Step(states, op).1.value !in Step(states, op).0
  {
    if op.Unstash? && Find(states, op.id).Some? {
      WithoutDistinct(states, Find(states, op.id).value);
    } else if op.UnstashLast? && states != [] {
      WithoutDistinct(states, Extreme(states, true));
    }
  }

  /** Every entry handed out later was there at the start or is newer than `last`. */
  lemma {:induction false} HandedOutKnown(states: seq<Entry>, last: real, ops: seq<Op>)
    requires Ordered(states, last) && AllAllowed(states, last, ops)
    ensures forall e :: e in HandedOut(states, ops) || e in Run(states, ops) ==> e in states || e.ts > last
    decreases |ops|
  {
    hide Step, Simple, Ordered;
    if ops != [] {
      StashIsStack(states, last, ops[0]);
      HandedIsGone(states, last, ops[0]);
      HandedOutKnown(Step(states, ops[0]).0, ops[0].now, ops[1..]);
    }
  }

  predicate NoRepeats(entries: seq<Entry>) {
    forall i, j :: 0 <= i < j < |entries| ==> entries[i] != entries[j]
  }

  lemma NoRepeatsCons(e: Entry, entries: seq<Entry>)
    requires e !in entries && NoRepeats(entries)
    ensures NoRepeats([e] + entries)
  {
  }

  /** A state is handed out at most once, and not kept. */
  lemma {:induction false} HandedOutOnce(states: seq<Entry>, last: real, ops: seq<Op>)
    requires Ordered(states, last) && AllAllowed(states, last, ops)
    ensures NoRepeats(HandedOut(states, ops))
    ensures forall e :: e in HandedOut(states, ops) ==> e !in Run(states, ops)
    decreases |ops|
  {
    hide Step, Simple, Ordered;
    if ops != [] {
      var (next, first) := Step(states, ops[0]);
      StashIsStack(states, last, ops[0]);
      HandedIsGone(states, last, ops[0]);
      FewEntries(states, last);
      HandedOutOnce(next, ops[0].now, ops[1..]);
      HandedOutKnown(next, ops[0].now, ops[1..]);
      var later := HandedOut(next, ops[1..]);
      assert HandedOut(states, ops) == (if first.Some? then [first.value] else []) + later;
      if first.Some? {
        assert first.value !in later;
        NoRepeatsCons(first.value, later);
      } else {
        assert [] + later == later;
      }
    }
  }

  /** The entry at `k` moved to `j`, and at most `more` newer ones came. */
  predicate Moved(states: seq<Entry>, k: nat, next: seq<Entry>, j: nat, more: nat) {
    k < |states| && j < |next| && next[j] == states[k] && |next| - 1 - j <= |states| - 1 - k + more
  }

  lemma SurvivesStash(states: seq<Entry>, last: real, op: Op, k: nat) returns (j: nat)
    requires Ordered(states, last) && op.Stash? && k < |states| && !Expired(states[k], op.now)
    requires |states| - 1 - k < MAX_STATES
    ensures Moved(states, k, Simple(states, op), j, 1)
  {
    hide Live, Trimmed, Extreme;
    FewEntries(states, last);
    var dropped := CollectStep(states, op.now);
    j := k - dropped;
  }

  /** One step either hands the entry at `k` out or keeps it, if it is young enough and has fewer
      than `MAX_STATES` newer ones; only a new state adds to those. */
  lemma SurvivesStep(states: seq<Entry>, last: real, op: Op, k: nat) returns (j: nat)
    requires Ordered(states, last) && Allowed(states, last, op) && k < |states| && !Expired(states[k], op.now)
    requires op.Stash? ==> |states| - 1 - k < MAX_STATES
    ensures Step(states, op).1 == Some(states[k])
      || Moved(states, k, Step(states, op).0, j, if op.Stash? then 1 else 0)
  {
    hide Live, Put, Trimmed, Stale, Extreme, Allowed, Ordered;
    StashIsStack(states, last, op);
    j := k;
    match op {
      case Stash(id, payload, now) =>
        j := SurvivesStash(states, last, op, k);
      case Unstash(id, now) =>
        var f := Find(states, id);
        if f.Some? && f.value < k {
          j := k - 1;
        }
      case UnstashLast(now) =>
        assert k < |states| - 1 || Step(states, op).1 == Some(states[k]);
    }
  }

  /** A state outlives the next `MAX_STATES` stashes: until it expires, it is there or was handed out. */
  lemma {:induction false} Survives(states: seq<Entry>, last: real, ops: seq<Op>, k: nat)
    requires Ordered(states, last) && AllAllowed(states, last, ops) && k < |states|
    requires forall i :: 0 <= i < |ops| ==> !Expired(states[k], ops[i].now)
    requires |states| - 1 - k + Stashes(ops) <= MAX_STATES
    ensures states[k] in Run(states, ops) || states[k] in HandedOut(states, ops)
    decreases |ops|
  {
    hide Step, Simple, Ordered;
    if ops != [] {
      StashIsStack(states, last, ops[0]);
      var j := SurvivesStep(states, last, ops[0], k);
      if Step(states, ops[0]).1 != Some(states[k]) {
        var next := Step(states, ops[0]).0;
        forall i | 0 <= i < |ops[1..]|
          ensures !Expired(next[j], ops[1..][i].now)
        {
          assert ops[1..][i] == ops[i + 1];
        }
        Survives(next, ops[0].now, ops[1..], j);
      }
    }
  }

  // ---------- Where the code falls short ----------

  /** Asking for the last state hands out even an expired one: exactly when nothing younger is left. */
  lemma LastMayBeExpiredIff(states: seq<Entry>, now: real)
    ensures (exists e :: Step(states, UnstashLast(now)).1 == Some(e) && Expired(e, now))
      <==> states != [] && forall i :: 0 <= i < |states| ==> Expired(states[i], now)
  {
    if states != [] {
      var k := Extreme(states, true);
      assert Step(states, UnstashLast(now)).1 == Some(states[k]);
      assert forall j :: 0 <= j < |states| ==> !Beats(states[j], states[k], true);
    }
  }

  /** Collecting brings the number down to `MAX_STATES` exactly when at most one entry is too many
      and that one, the oldest, has an id that is not empty. */
  lemma CollectedIff(states: seq<Entry>, now: real)
    ensures var live := Live(states, now);
      |Trimmed(live)| <= MAX_STATES <==>
        |live| <= MAX_STATES || (|live| == MAX_STATES + 1 && live[Extreme(live, false)].id != "")
  {
  }

  /** Asking for the last state hands out the newest entry, and takes it out exactly when its id is
      not empty. No shipped caller stores a state under the empty id; an adapter that overrides
      `generate_state_param`, or a caller with its own `state_id`, may. */
  lemma LastIsGoneIff(states: seq<Entry>, now: real)
    requires Distinct(states) && states != []
    ensures var (next, handed) := Step(states, UnstashLast(now));
      && handed == Some(states[Extreme(states, true)])
      && (handed.value !in next <==> handed.value.id != "")
  {
    WithoutDistinct(states, Extreme(states, true));
  }

  /** So a state under the empty id is handed out again and again, as long as it is the newest. */
  lemma {:induction false} EmptyIdHandedOutAgain(states: seq<Entry>, ops: seq<Op>)
    requires states != [] && states[Extreme(states, true)].id == "" && forall op :: op in ops ==> op.UnstashLast?
    ensures Run(states, ops) == states && |HandedOut(states, ops)| == |ops|
    ensures forall e :: e in HandedOut(states, ops) ==> e == states[Extreme(states, true)]
  {
    if ops != [] {
      assert ops[0] in ops;
      EmptyIdHandedOutAgain(states, ops[1..]);
    }
  }

  /** It does go when it expires, and when it is asked for by its id. */
  lemma EmptyIdGoes(states: seq<Entry>, k: nat, now: real)
    requires Distinct(states) && k < |states| && states[k].id == ""
    ensures states[k] !in Step(states, Unstash("", now)).0
    ensures Expired(states[k], now) ==> states[k] !in Trimmed(Live(states, now))
  {
    FindDistinct(states, k);
    WithoutDistinct(states, k);
    LiveDistinct(states, now);
    var live := Live(states, now);
    if live != [] {
      WithoutDistinct(live, Extreme(live, false));
    }
  }

  /** The shortest such run. */
  lemma EmptyIdStays(payload: Payload, now: real)
    ensures var states := [Entry("", payload, now)];
      && Step(states, UnstashLast(now)) == (states, Some(states[0]))
      && HandedOut(states, [UnstashLast(now), UnstashLast(now)]) == [states[0], states[0]]
  {
    var states := [Entry("", payload, now)];
    var op := UnstashLast(now);
    assert Step(states, op) == (states, Some(states[0]));
    assert [op, op][1..] == [op] && [op][1..] == [];
    assert HandedOut(states, [op]) == [states[0]] + HandedOut(states, []);
  }
}
