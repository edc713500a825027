/** One send in flight per wallet key, a chain with a contract or with "transfer": each task is chained
    behind the last task of its key. A run is a sequence of steps in which callers enqueue and the
    event loop starts and settles tasks. */
module WalletQueue {
  import opened Text
  import opened Json

  // ------------------------------------------------------------------ keys

  function CallKey(chainId: nat, address: Str): Str { Dec(chainId) + S(":") + Lower(address) }

  function TransferKey(chainId: nat): Str { Dec(chainId) + S(":transfer") }

  /** Two contract calls share a queue exactly if chain and address agree up to letter case. */
  lemma CallKeysAgree(c: nat, a: Str, d: nat, b: Str)
    ensures CallKey(c, a) == CallKey(d, b) <==> c == d && Lower(a) == Lower(b)
  {
    CallKeyReads(c, a);
    CallKeyReads(d, b);
  }

  lemma CallKeyReads(c: nat, a: Str)
    ensures ReadDigits(CallKey(c, a), 0) == (c, S(":") + Lower(a))
    ensures (S(":") + Lower(a))[1..] == Lower(a)
  {
    Assoc(Dec(c), S(":"), Lower(a));
    ReadDec(c, S(":") + Lower(a));
  }

  /** Transfers of a chain queue apart from the calls to any 0x address. */
  lemma TransfersApart(c: nat, d: nat, b: Str)
    requires b != [] && b[0] == '0' as int
    ensures TransferKey(c) != CallKey(d, b)
  {
    ReadDec(c, S(":transfer"));
    CallKeyReads(d, b);
    assert S(":transfer")[1] == 't' as int;
    assert (S(":") + Lower(b))[1] == '0' as int;
  }

  // ----------------------------------------------------------------- state

  datatype Result<T> = Fulfilled(value: T) | Rejected(error: T)

  datatype Status<T> = Waiting | Running | Settled(result: Result<T>)

  /** A task and the id of the one it was chained behind. */
  datatype Task<T> = Task(key: Str, previous: Option<nat>, status: Status<T>)

  /** Task ids are positions; `last` is the map from wallet key to the stored link. */
  datatype Queue<T> = Queue(tasks: seq<Task<T>>, last: map<Str, nat>)

  datatype Step<T> = Enqueue(key: Str) | Start(id: nat) | Settle(id: nat, result: Result<T>)

  function Previous<T>(q: Queue<T>, key: Str): Option<nat> {
    if key in q.last then Some(q.last[key]) else None
  }

  /** The stored link swallows rejection, so settled either way releases the next task. */
  predicate Released<T(==)>(q: Queue<T>, id: nat)
    requires id < |q.tasks|
  {
    match q.tasks[id].previous
    case None => true
    case Some(p) => p < |q.tasks| && q.tasks[p].status.Settled?
  }

  predicate Enabled<T(==)>(q: Queue<T>, s: Step<T>) {
    match s
    case Enqueue(_) => true
    case Start(id) => id < |q.tasks| && q.tasks[id].status == Waiting && Released(q, id)
    case Settle(id, _) => id < |q.tasks| && q.tasks[id].status == Running
  }

  function SetStatus<T>(q: Queue<T>, id: nat, status: Status<T>): Queue<T>
    requires id < |q.tasks|
  {
    Queue(q.tasks[id := q.tasks[id].(status := status)], q.last)
  }

  function Apply<T(==)>(q: Queue<T>, s: Step<T>): Queue<T>
    requires Enabled(q, s)
  {
    match s
    case Enqueue(key) => Queue(q.tasks + [Task(key, Previous(q, key), Waiting)], q.last[key := |q.tasks|])
    case Start(id) => SetStatus(q, id, Running)
    case Settle(id, result) => SetStatus(q, id, Settled(result))
  }

  /** The field `walletQueues` and the promises it chains. */
  class WalletQueues<T(==)> {
    var tasks: seq<Task<T>>
    var last: map<Str, nat>

    ghost function Value(): Queue<T>
      reads this
    {
      Queue(tasks, last)
    }

    constructor ()
      ensures Value() == Queue([], map[])
    {
      tasks, last := [], map[];
    }

    method Push(key: Str) returns (id: nat)
      modifies this
      ensures id == |old(tasks)| && Value() == Apply(old(Value()), Enqueue(key))
    {
      var previous := if key in last then Some(last[key]) else None;
      id := |tasks|;
      tasks := tasks + [Task(key, previous, Waiting)];
      last := last[key := id];
    }

    method Begin(id: nat)
      requires Enabled(Value(), Start(id))
      modifies this
      ensures Value() == Apply(old(Value()), Start(id))
    {
      tasks := tasks[id := tasks[id].(status := Running)];
    }

    method Finish(id: nat, result: Result<T>)
      requires Enabled(Value(), Settle(id, result))
      modifies this
      ensures Value() == Apply(old(Value()), Settle(id, result))
    {
      tasks := tasks[id := tasks[id].(status := Settled(result))];
    }
  }

  // ------------------------------------------------------------------ runs

  ghost predicate Legal<T>(ss: seq<Step<T>>)
    decreases |ss|, 0
  {
    ss == [] || (Legal(ss[..|ss| - 1]) && Enabled(Reach(ss[..|ss| - 1]), ss[|ss| - 1]))
  }

  ghost function Reach<T>(ss: seq<Step<T>>): Queue<T>
    requires Legal(ss)
    decreases |ss|, 1
  {
    if ss == [] then Queue([], map[]) else Apply(Reach(ss[..|ss| - 1]), ss[|ss| - 1])
  }

  // --------------------------------------------------- what every run keeps

  predicate SameKey<T>(q: Queue<T>, i: nat, j: nat)
    requires i < |q.tasks| && j < |q.tasks|
  {
    q.tasks[i].key == q.tasks[j].key
  }

  /** p is the latest task of the key before position n, or there is none. */
  ghost predicate LatestBefore<T(!new)>(q: Queue<T>, key: Str, n: nat, p: Option<nat>)
    requires n <= |q.tasks|
  {
    match p
    case None => forall i :: 0 <= i < n ==> q.tasks[i].key != key
    case Some(k) => k < n && q.tasks[k].key == key && forall i :: k < i < n ==> q.tasks[i].key != key
  }

  ghost predicate Linked<T(!new)>(q: Queue<T>) {
    && (forall k :: LatestBefore(q, k, |q.tasks|, Previous(q, k)))
    && (forall i :: 0 <= i < |q.tasks| ==> LatestBefore(q, q.tasks[i].key, i, q.tasks[i].previous))
  }

  /** A task has left Waiting only once every earlier task of its key was settled. */
  ghost predicate Serial<T(!new)>(q: Queue<T>) {
    forall i, j :: 0 <= i < j < |q.tasks| && SameKey(q, i, j) && q.tasks[j].status != Waiting ==>
      q.tasks[i].status.Settled?
  }

  lemma SettledUpTo<T(!new)>(q: Queue<T>, id: nat, i: nat)
    requires Linked(q) && Serial(q) && i < id < |q.tasks| && Released(q, id) && SameKey(q, i, id)
    ensures q.tasks[i].status.Settled?
  {
    var p := q.tasks[id].previous.value;
    if i < p { assert SameKey(q, i, p); }
  }

  lemma EnqueueKeeps<T(!new)>(q: Queue<T>, key: Str)
    requires Linked(q) && Serial(q)
    ensures Linked(Apply(q, Enqueue(key))) && Serial(Apply(q, Enqueue(key)))
  {
    var r := Apply(q, Enqueue(key));
    forall k ensures LatestBefore(r, k, |r.tasks|, Previous(r, k)) {
      assert LatestBefore(q, k, |q.tasks|, Previous(q, k));
    }
    forall i | 0 <= i < |r.tasks| ensures LatestBefore(r, r.tasks[i].key, i, r.tasks[i].previous) {
      if i < |q.tasks| {
        assert LatestBefore(q, q.tasks[i].key, i, q.tasks[i].previous);
      } else {
        assert LatestBefore(q, key, |q.tasks|, Previous(q, key));
      }
    }
    forall i, j | 0 <= i < j < |r.tasks| && SameKey(r, i, j) && r.tasks[j].status != Waiting
      ensures r.tasks[i].status.Settled?
    {
      assert SameKey(q, i, j);
    }
  }

  lemma StatusKeepsLinks<T(!new)>(q: Queue<T>, id: nat, status: Status<T>)
    requires Linked(q) && id < |q.tasks|
    ensures Linked(SetStatus(q, id, status))
  {
    var r := SetStatus(q, id, status);
    forall k ensures LatestBefore(r, k, |r.tasks|, Previous(r, k)) {
      assert LatestBefore(q, k, |q.tasks|, Previous(q, k));
    }
    forall i | 0 <= i < |r.tasks| ensures LatestBefore(r, r.tasks[i].key, i, r.tasks[i].previous) {
      assert LatestBefore(q, q.tasks[i].key, i, q.tasks[i].previous);
    }
  }

  lemma StepKeeps<T(!new)>(q: Queue<T>, s: Step<T>)
    requires Linked(q) && Serial(q) && Enabled(q, s)
    ensures Linked(Apply(q, s)) && Serial(Apply(q, s))
  {
    match s
    case Enqueue(key) => EnqueueKeeps(q, key);
    case Start(id) =>
      StatusKeepsLinks(q, id, Running);
      var r := Apply(q, s);
      forall i, j | 0 <= i < j < |r.tasks| && SameKey(r, i, j) && r.tasks[j].status != Waiting
        ensures r.tasks[i].status.Settled?
      {
        assert SameKey(q, i, j);
        if j == id { SettledUpTo(q, id, i); }
      }
    case Settle(id, result) =>
      StatusKeepsLinks(q, id, Settled(result));
      var r := Apply(q, s);
      forall i, j | 0 <= i < j < |r.tasks| && SameKey(r, i, j) && r.tasks[j].status != Waiting
        ensures r.tasks[i].status.Settled?
      {
        assert SameKey(q, i, j);
      }
  }

  /** Every reachable state is linked and serial. */
  lemma {:induction false} RunKeeps<T(!new)>(ss: seq<Step<T>>)
    requires Legal(ss)
    ensures Linked(Reach(ss)) && Serial(Reach(ss))
  {
    if ss != [] {
      RunKeeps(ss[..|ss| - 1]);
      StepKeeps(Reach(ss[..|ss| - 1]), ss[|ss| - 1]);
    }
  }

  /** Per key at most one task is in flight. */
  lemma OneInFlight<T(!new)>(ss: seq<Step<T>>, i: nat, j: nat)
    requires Legal(ss) && i < |Reach(ss).tasks| && j < |Reach(ss).tasks|
    requires SameKey(Reach(ss), i, j)
    requires Reach(ss).tasks[i].status == Running && Reach(ss).tasks[j].status == Running
    ensures i == j
  {
    RunKeeps(ss);
    assert SameKey(Reach(ss), j, i);
  }

  /** A waiting task may start exactly when every earlier task of its own key is settled, whether
      fulfilled or rejected. Tasks of other keys do not occur in the condition. */
  lemma StartsExactlyInTurn<T(!new)>(ss: seq<Step<T>>, id: nat)
    requires Legal(ss) && id < |Reach(ss).tasks| && Reach(ss).tasks[id].status == Waiting
    ensures var q := Reach(ss);
      Enabled(q, Start(id)) <==>
      forall i :: 0 <= i < id && SameKey(q, i, id) ==> q.tasks[i].status.Settled?
  {
    RunKeeps(ss);
    var q := Reach(ss);
    if Released(q, id) {
      forall i | 0 <= i < id && SameKey(q, i, id) ensures q.tasks[i].status.Settled? { SettledUpTo(q, id, i); }
    }
    assert LatestBefore(q, q.tasks[id].key, id, q.tasks[id].previous);
    match q.tasks[id].previous
    case None =>
    case Some(p) => assert SameKey(q, p, id);
  }

  lemma OneMore<T>(ss: seq<Step<T>>, s: Step<T>)
    requires Legal(ss) && Enabled(Reach(ss), s)
    ensures Legal(ss + [s]) && Reach(ss + [s]) == Apply(Reach(ss), s)
  {
    assert (ss + [s])[..|ss|] == ss;
  }

  /** A key is not a wallet: of two calls of one wallet on a chain the second may start while the
      first is in flight exactly if they go to different contracts. */
  lemma TwoContractsOverlap<T(!new)>(c: nat, a: Str, b: Str)
    ensures var both: seq<Step<T>> := [Enqueue(CallKey(c, a)), Enqueue(CallKey(c, b)), Start(0)];
      && Legal(both) && Reach(both).tasks[0].status == Running
      && (Enabled(Reach(both), Start(1)) <==> Lower(a) != Lower(b))
  {
    var both: seq<Step<T>> := [Enqueue(CallKey(c, a)), Enqueue(CallKey(c, b)), Start(0)];
    var none: seq<Step<T>> := [];
    OneMore(none, both[0]);
    assert none + [both[0]] == [both[0]];
    OneMore([both[0]], both[1]);
    assert [both[0]] + [both[1]] == [both[0], both[1]];
    OneMore([both[0], both[1]], both[2]);
    assert [both[0], both[1]] + [both[2]] == both;
    CallKeysAgree(c, a, c, b);
  }

  /** The earliest unsettled task of a key. */
  ghost function Head<T(!new)>(q: Queue<T>, key: Str, from: nat): Option<nat>
    requires from <= |q.tasks|
    decreases |q.tasks| - from
  {
    if from == |q.tasks| then None
    else if q.tasks[from].key == key && !q.tasks[from].status.Settled? then Some(from)
    else Head(q, key, from + 1)
  }

  lemma {:induction false} HeadIsFirst<T(!new)>(q: Queue<T>, key: Str, from: nat)
    requires from <= |q.tasks|
    ensures match Head(q, key, from)
      case None => forall i :: from <= i < |q.tasks| && q.tasks[i].key == key ==> q.tasks[i].status.Settled?
      case Some(h) =>
        && from <= h < |q.tasks| && q.tasks[h].key == key && !q.tasks[h].status.Settled?
        && forall i :: from <= i < h && q.tasks[i].key == key ==> q.tasks[i].status.Settled?
    decreases |q.tasks| - from
  {
    if from < |q.tasks| { HeadIsFirst(q, key, from + 1); }
  }

  /** No key is ever stuck: as long as it has an unsettled task, one of its tasks is running or can
      start. */
  lemma NeverStuck<T(!new)>(ss: seq<Step<T>>, key: Str, i: nat)
    requires Legal(ss) && i < |Reach(ss).tasks|
    requires Reach(ss).tasks[i].key == key && !Reach(ss).tasks[i].status.Settled?
    ensures var h := Head(Reach(ss), key, 0);
      && h.Some? && h.value <= i
      && (Reach(ss).tasks[h.value].status == Running || Enabled(Reach(ss), Start(h.value)))
  {
    var q := Reach(ss);
    HeadIsFirst(q, key, 0);
    var h := Head(q, key, 0).value;
    if q.tasks[h].status == Waiting { StartsExactlyInTurn(ss, h); }
  }

  // ------------------------------------------------------------ start order

  ghost predicate StartedAt<T>(ss: seq<Step<T>>, k: nat, id: nat) { k < |ss| && ss[k] == Start(id) }

  lemma {:induction false} StartedMeans<T(!new)>(ss: seq<Step<T>>, id: nat)
    requires Legal(ss)
    ensures (exists k: nat :: StartedAt(ss, k, id)) <==> id < |Reach(ss).tasks| && Reach(ss).tasks[id].status != Waiting
  {
    if ss != [] {
      var init := ss[..|ss| - 1];
      StartedMeans(init, id);
      if k: nat :| StartedAt(ss, k, id) {
        if k < |init| { assert StartedAt(init, k, id); }
      }
      if id < |Reach(ss).tasks| && Reach(ss).tasks[id].status != Waiting {
        if id < |Reach(init).tasks| && Reach(init).tasks[id].status != Waiting {
          var k: nat :| StartedAt(init, k, id);
          assert StartedAt(ss, k, id);
        } else {
          assert StartedAt(ss, |ss| - 1, id);
        }
      }
    }
  }

  lemma {:induction false} PrefixKeeps<T(!new)>(ss: seq<Step<T>>, n: nat)
    requires Legal(ss) && n <= |ss|
    ensures Legal(ss[..n])
    ensures |Reach(ss[..n]).tasks| <= |Reach(ss).tasks|
    ensures forall i :: 0 <= i < |Reach(ss[..n]).tasks| ==> Reach(ss[..n]).tasks[i].key == Reach(ss).tasks[i].key
  {
    if n == |ss| {
      assert ss[..n] == ss;
    } else {
      PrefixKeeps(ss[..|ss| - 1], n);
      assert ss[..|ss| - 1][..n] == ss[..n];
    }
  }

  /** Tasks of one key start in the order in which they were enqueued, each at most once. */
  lemma StartOrder<T(!new)>(ss: seq<Step<T>>, k: nat, i: nat, m: nat, j: nat)
    requires Legal(ss) && StartedAt(ss, k, i) && StartedAt(ss, m, j)
    requires i < |Reach(ss).tasks| && j < |Reach(ss).tasks| && SameKey(Reach(ss), i, j)
    ensures k < m ==> i < j
  {
    if k < m {
      PrefixKeeps(ss, m);
      PrefixKeeps(ss, m + 1);
      var before := ss[..m];
      assert ss[..m + 1][..m] == before && ss[..m + 1][m] == Start(j);
      assert Enabled(Reach(before), Start(j));
      assert StartedAt(before, k, i);
      StartedMeans(before, i);
      RunKeeps(before);
      assert Reach(before).tasks[j].status == Waiting;
      if j < i { assert SameKey(Reach(before), j, i); }
    }
  }

  /** A caller's promise settles with what its own task settled with, and never changes. */
  lemma {:induction false} OwnResult<T(!new)>(ss: seq<Step<T>>, id: nat, result: Result<T>)
    requires Legal(ss)
    ensures Settle(id, result) in ss <==> id < |Reach(ss).tasks| && Reach(ss).tasks[id].status == Settled(result)
  {
    if ss != [] {
      var init := ss[..|ss| - 1];
      OwnResult(init, id, result);
      assert ss == init + [ss[|ss| - 1]];
    }
  }
}
