/** The per-resource waiting line: a ticket counter (`nextTurn`), an admission
    counter (`nextIn`) and the batches ("pools") of websocket connections that a
    broadcaster pushes the admission counter to. */
module Lines {
  import opened GoTypes

  /** Capacity every fresh pool is created with. */
  const ConnsCapacity: nat := 1

  /** A websocket connection; only its identity and its place in a pool matter. */
  class Conn {}

  // ---------------------------------------------------------------------------
  // Ticket counter: the values handed out by successive GetNextTurn calls

  /** The turns returned by `n` successive `GetNextTurn` calls on a line whose
      ticket counter stands at `start`. */
  function IssuedTurns(start: uint32, n: nat): (ts: seq<uint32>)
    ensures |ts| == n
    decreases n
  {
    if n == 0 then [] else [Inc32(start)] + IssuedTurns(Inc32(start), n - 1)
  }

  /** The `k`-th of those turns is the counter advanced `k + 1` times. */
  lemma {:induction false} IssuedTurnAt(start: uint32, n: nat, k: nat)
    requires k < n
    ensures IssuedTurns(start, n)[k] == Advance(start, k + 1)
    decreases k
  {
    if k == 0 {
      assert IssuedTurns(start, n)[0] == Inc32(start) == Advance(start, 1);
    } else {
      IssuedTurnAt(Inc32(start), n - 1, k - 1);
      AdvanceShift(start, k);
    }
  }

  /** On a fresh line (counter 0) call number `k + 1` returns `k + 1`, except call
      number 2^32, which returns 0. */
  lemma FreshLineTurnAt(n: nat, k: nat)
    requires k < n && k < Uint32Modulus
    ensures IssuedTurns(0, n)[k] as int == if k + 1 < Uint32Modulus then k + 1 else 0
  {
    IssuedTurnAt(0, n, k);
    if k + 1 < Uint32Modulus {
      AdvanceNoWrap(0, k + 1);
    } else {
      AdvanceWraps();
    }
  }

  /** On a fresh line (counter 0) fewer than 2^32 calls return exactly 1, 2, ..., n. */
  lemma FreshLineTurnsContiguous(n: nat)
    requires n < Uint32Modulus
    ensures forall k :: 0 <= k < n ==> IssuedTurns(0, n)[k] as int == k + 1
  {
    forall k | 0 <= k < n
      ensures IssuedTurns(0, n)[k] as int == k + 1
    {
      FreshLineTurnAt(n, k);
    }
  }

  /** On a fresh line no turn is handed out twice among the first 2^32 calls. */
  lemma FreshLineTurnsDistinct(n: nat)
    requires n <= Uint32Modulus
    ensures forall i, j :: 0 <= i < j < n ==> IssuedTurns(0, n)[i] != IssuedTurns(0, n)[j]
  {
    forall i, j | 0 <= i < j < n
      ensures IssuedTurns(0, n)[i] != IssuedTurns(0, n)[j]
    {
      FreshLineTurnAt(n, i);
      FreshLineTurnAt(n, j);
    }
  }

  /** The 32-bit counter wraps: call number 2^32 + 1 on a fresh line returns
      turn 1 again, the same turn as the first call. */
  lemma TurnsRepeatAfterWrap()
    ensures IssuedTurns(0, Uint32Modulus + 1)[Uint32Modulus] == IssuedTurns(0, Uint32Modulus + 1)[0]
    ensures IssuedTurns(0, Uint32Modulus + 1)[0] == 1
  {
    IssuedTurnAt(0, Uint32Modulus + 1, Uint32Modulus);
    IssuedTurnAt(0, Uint32Modulus + 1, 0);
    AdvanceWraps();
  }

  // ---------------------------------------------------------------------------
  // Pools as values: `bs[i]` is the connection list of the i-th real pool

  /** Every connection held by a sequence of pools, in pool order. */
  function Flatten(bs: seq<seq<Conn>>): seq<Conn>
  {
    if bs == [] then [] else Flatten(bs[..|bs| - 1]) + bs[|bs| - 1]
  }

  /** Fill order: no pool holds more than its capacity, and every pool before
      the last (the current one) is full. */
  predicate FilledInOrder(bs: seq<seq<Conn>>)
  {
    (forall i :: 0 <= i < |bs| ==> |bs[i]| <= ConnsCapacity) &&
    (forall i :: 0 <= i < |bs| - 1 ==> |bs[i]| == ConnsCapacity)
  }

  /** The current (last) pool is full. */
  predicate CurrentIsFull(bs: seq<seq<Conn>>)
    requires bs != []
  {
    |bs[|bs| - 1]| == ConnsCapacity
  }

  /** The pools after `AppendTurnConn(c)`: a new pool holding just `c` when the
      current one is full, otherwise `c` added to the end of the current pool. */
  function AppendConn(bs: seq<seq<Conn>>, c: Conn): seq<seq<Conn>>
    requires bs != []
  {
    if CurrentIsFull(bs) then bs + [[c]] else bs[..|bs| - 1] + [bs[|bs| - 1] + [c]]
  }

  /** The pools of a fresh line after subscribing the connections `cs` in order. */
  function Subscribed(cs: seq<Conn>): (bs: seq<seq<Conn>>)
    ensures bs != []
  {
    if cs == [] then [[]] else AppendConn(Subscribed(cs[..|cs| - 1]), cs[|cs| - 1])
  }

  /** Appending never reorders or shrinks pools: all pools but the current one are
      kept as they were, one pool is added exactly when the current one was full,
      and `c` becomes the last connection of the last pool. */
  lemma AppendConnShape(bs: seq<seq<Conn>>, c: Conn)
    requires bs != []
    ensures var r := AppendConn(bs, c);
      |r| == (if CurrentIsFull(bs) then |bs| + 1 else |bs|) &&
      r[..|bs| - 1] == bs[..|bs| - 1] &&
      r[|bs| - 1] == (if CurrentIsFull(bs) then bs[|bs| - 1] else bs[|bs| - 1] + [c]) &&
      r[|r| - 1] == (if CurrentIsFull(bs) then [c] else bs[|bs| - 1] + [c])
  {
  }

  /** Appending adds exactly one connection, at the end of the connection order. */
  lemma AppendConnFlatten(bs: seq<seq<Conn>>, c: Conn)
    requires bs != []
    ensures Flatten(AppendConn(bs, c)) == Flatten(bs) + [c]
  {
  }

  /** Appending keeps the fill order. */
  lemma AppendConnFilledInOrder(bs: seq<seq<Conn>>, c: Conn)
    requires bs != [] && FilledInOrder(bs)
    ensures FilledInOrder(AppendConn(bs, c))
  {
  }

  /** Every subscribed connection is stored exactly once, in subscription order;
      in particular the pools hold as many connections as there were calls. */
  lemma {:induction false} SubscribedFlatten(cs: seq<Conn>)
    ensures Flatten(Subscribed(cs)) == cs
  {
    if cs == [] {
      assert Flatten([[]]) == Flatten([]) + [];
    } else {
      var init := cs[..|cs| - 1];
      SubscribedFlatten(init);
      AppendConnFlatten(Subscribed(init), cs[|cs| - 1]);
      assert init + [cs[|cs| - 1]] == cs;
    }
  }

  /** However many connections subscribe, the pools are filled in order. */
  lemma {:induction false} SubscribedFilledInOrder(cs: seq<Conn>)
    ensures FilledInOrder(Subscribed(cs))
  {
    if cs != [] {
      SubscribedFilledInOrder(cs[..|cs| - 1]);
      AppendConnFilledInOrder(Subscribed(cs[..|cs| - 1]), cs[|cs| - 1]);
    }
  }

  /** With one connection per pool, `n >= 1` subscriptions give exactly `n` pools,
      the i-th holding only the i-th connection. */
  lemma {:induction false} SubscribedOnePerPool(cs: seq<Conn>)
    requires cs != []
    ensures |Subscribed(cs)| == |cs|
    ensures forall i :: 0 <= i < |cs| ==> Subscribed(cs)[i] == [cs[i]]
  {
    var init := cs[..|cs| - 1];
    if init == [] {
      assert Subscribed(cs) == AppendConn([[]], cs[0]);
    } else {
      SubscribedOnePerPool(init);
      var bs := Subscribed(init);
      assert CurrentIsFull(bs);
      assert Subscribed(cs) == bs + [[cs[|cs| - 1]]];
    }
  }

  // ---------------------------------------------------------------------------
  // The objects

  /** One batch of connections served by one broadcaster. `capacity` is the
      capacity of the underlying Go slice. */
  class TurnsPool {
    var conns: seq<Conn>
    var capacity: nat

    predicate IsFull()
      reads this
    {
      |conns| == capacity
    }

    /** A fresh pool is empty, has room for `ConnsCapacity` connections, and so is not full. */
    constructor ()
      ensures conns == [] && capacity == ConnsCapacity
      ensures !IsFull()
    {
      conns := [];
      capacity := ConnsCapacity;
    }

    /** Go's `append`: the connection goes to the end; with room left the capacity
        stays, otherwise the slice is reallocated with at least double the room. */
    method AppendTurnConn(conn: Conn)
      modifies this
      ensures conns == old(conns) + [conn]
      ensures |conns| <= capacity
      ensures old(|conns|) < old(capacity) ==> capacity == old(capacity)
    {
      if |conns| + 1 > capacity {
        capacity := if 2 * capacity >= |conns| + 1 then 2 * capacity else |conns| + 1;
      }
      conns := conns + [conn];
    }
  }

  class Line {
    const id: string
    var nextTurn: uint32
    var nextIn: uint32
    /** `pools[0]` is the nil placeholder the slice is made with; the real pools follow. */
    var pools: seq<TurnsPool?>
    var currentPool: TurnsPool?

    /** Every connection ever appended, in order. */
    ghost var Subscribers: seq<Conn>
    /** The connection lists of `pools[1..]`, in order. */
    ghost var Batches: seq<seq<Conn>>
    /** The real pools. */
    ghost var Repr: set<TurnsPool>

    /** The pools slice: placeholder first, then distinct real pools whose contents
        are `Batches`, each created with capacity `ConnsCapacity`, and the
        current pool is the last one (nil while there is none). */
    ghost predicate Shaped()
      reads this`pools, this`currentPool, this`Batches, this`Repr, Repr
    {
      |pools| >= 1 && pools[0] == null &&
      |Batches| == |pools| - 1 &&
      (forall i :: 1 <= i < |pools| ==>
         pools[i] != null && pools[i] in Repr &&
         pools[i].conns == Batches[i - 1] && pools[i].capacity == ConnsCapacity) &&
      (forall i, j :: 1 <= i < j < |pools| ==> pools[i] != pools[j]) &&
      currentPool == (if |pools| == 1 then null else pools[|pools| - 1])
    }

    /** A constructed line: at least one real pool, pools filled in order, and the
        pools are exactly what subscribing `Subscribers` to a fresh line yields. */
    ghost predicate Valid()
      reads this`pools, this`currentPool, this`Batches, this`Subscribers, this`Repr, Repr
    {
      Shaped() && |pools| >= 2 &&
      Batches == Subscribed(Subscribers) && FilledInOrder(Batches)
    }

    /** `NewLine` without the broadcaster: counters at 0 and 1, the placeholder
        and one empty pool, which is current. */
    constructor (id: string)
      ensures this.id == id && nextTurn == 0 && nextIn == 1
      ensures Valid() && fresh(Repr)
      ensures |pools| == 2 && pools[0] == null && currentPool == pools[1]
      ensures Subscribers == [] && Batches == [[]]
    {
      this.id := id;
      nextTurn := 0;
      nextIn := 1;
      pools := [null];
      currentPool := null;
      Subscribers := [];
      Batches := [];
      Repr := {};
      new;
      NewTurnsPool();
    }

    /** Takes the next ticket: the counter moves up by one (wrapping at 2^32)
        and the new value is the turn. Nothing else changes. */
    method GetNextTurn() returns (turn: uint32)
      modifies this`nextTurn
      ensures nextTurn == Inc32(old(nextTurn))
      ensures turn == nextTurn
    {
      nextTurn := Inc32(nextTurn);
      turn := nextTurn;
    }

    /** Reads the admission counter without changing anything. */
    method NextIn() returns (n: uint32)
      ensures n == nextIn
    {
      n := nextIn;
    }

    /** Adds one empty pool at the end of `pools` and makes it current; earlier
        entries, the placeholder included, stay as they were. */
    method NewTurnsPool()
      requires Shaped()
      modifies this`pools, this`currentPool, this`Batches, this`Repr
      ensures Shaped()
      ensures fresh(currentPool) && currentPool != null
      ensures currentPool.conns == [] && currentPool.capacity == ConnsCapacity
      ensures pools == old(pools) + [currentPool]
      ensures Batches == old(Batches) + [[]]
      ensures Repr == old(Repr) + {currentPool}
    {
      var pool := new TurnsPool();
      pools := pools + [pool];
      currentPool := pool;
      Batches := Batches + [[]];
      Repr := Repr + {pool};
    }

    /** Admits the next turn: the admission counter moves up by one (wrapping at
        2^32) and its new value is returned. Nothing else changes. */
    method ReleaseTurn() returns (n: uint32)
      modifies this`nextIn
      ensures nextIn == Inc32(old(nextIn))
      ensures n == nextIn
    {
      nextIn := Inc32(nextIn);
      n := nextIn;
    }

    /** Subscribes a connection. If the current pool is full a new pool is made
        current first; the connection goes to the end of the current pool.
        `created` tells whether a pool was created, the cue for starting a
        broadcaster for it. The counters are untouched. */
    method AppendTurnConn(conn: Conn) returns (created: bool)
      requires Valid()
      modifies this`pools, this`currentPool, this`Batches, this`Subscribers, this`Repr, Repr
      ensures Valid() && fresh(Repr - old(Repr))
      ensures created == old(currentPool.IsFull())
      ensures Subscribers == old(Subscribers) + [conn]
      ensures Batches == AppendConn(old(Batches), conn)
      ensures old(pools) <= pools
      ensures created ==> fresh(currentPool) && pools == old(pools) + [currentPool]
      ensures !created ==> pools == old(pools) && currentPool == old(currentPool)
    {
      ghost var before := Batches;
      var isNewPool := currentPool.IsFull();
      if isNewPool {
        NewTurnsPool();
      }
      currentPool.AppendTurnConn(conn);
      Batches := Batches[|Batches| - 1 := Batches[|Batches| - 1] + [conn]];
      assert isNewPool == CurrentIsFull(before);
      if isNewPool {
        assert Batches == (before + [[]])[|before| := [] + [conn]];
        assert [] + [conn] == [conn];
        assert Batches == before + [[conn]];
      } else {
        assert Batches == before[..|before| - 1] + [before[|before| - 1] + [conn]];
      }
      assert Subscribed(Subscribers + [conn]) == AppendConn(before, conn) by {
        assert (Subscribers + [conn])[..|Subscribers|] == Subscribers;
      }
      Subscribers := Subscribers + [conn];
      AppendConnFilledInOrder(before, conn);
      created := isNewPool;
    }
  }

  // ---------------------------------------------------------------------------
  // Successive calls: what a run of requests does to one line

  /** `n` successive `GetNextTurn` calls return `IssuedTurns` of the starting
      counter, and leave the counter advanced `n` times. */
  method GetNextTurns(line: Line, n: nat) returns (ts: seq<uint32>)
    modifies line`nextTurn
    ensures ts == IssuedTurns(old(line.nextTurn), n)
    ensures line.nextTurn == Advance(old(line.nextTurn), n)
  {
    ts := [];
    var i := 0;
    while i < n
      invariant 0 <= i <= n
      invariant line.nextTurn == Advance(old(line.nextTurn), i)
      invariant ts + IssuedTurns(line.nextTurn, n - i) == IssuedTurns(old(line.nextTurn), n)
    {
      ghost var before := line.nextTurn;
      var t := line.GetNextTurn();
      assert IssuedTurns(before, n - i) == [t] + IssuedTurns(t, n - i - 1);
      ts := ts + [t];
      i := i + 1;
    }
  }

  /** `k` successive `ReleaseTurn` calls return the admission counter advanced
      1, 2, ..., k times, and leave it advanced `k` times: on a fresh line
      (`nextIn` 1) that is 1 + k short of wrap-around. */
  method ReleaseTurns(line: Line, k: nat) returns (ns: seq<uint32>)
    modifies line`nextIn
    ensures |ns| == k
    ensures forall j :: 0 <= j < k ==> ns[j] == Advance(old(line.nextIn), j + 1)
    ensures line.nextIn == Advance(old(line.nextIn), k)
  {
    ns := [];
    var i := 0;
    while i < k
      invariant 0 <= i <= k && |ns| == i
      invariant line.nextIn == Advance(old(line.nextIn), i)
      invariant forall j :: 0 <= j < i ==> ns[j] == Advance(old(line.nextIn), j + 1)
    {
      var n := line.ReleaseTurn();
      ns := ns + [n];
      i := i + 1;
    }
  }
}
