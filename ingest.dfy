/**
 * The ingestion step as functions on values: the update cursor and the bounded
 * display buffer, how one update changes them, how a batch does, and what a
 * batch leaves behind stated without replaying it step by step.
 */
module Ingest {
  import opened Wrappers
  import opened Updates
  import opened Normalise

  /** The buffer keeps at most this many records. */
  const Capacity: nat := 50

  /** The cursor (`lastUpdateId`) and the display buffer (`messages`). */
  datatype State = State(cursor: int, buffer: seq<Message>)

  /** The last `n` elements of `s` (all of `s` when it is shorter). */
  function LastN<T>(s: seq<T>, n: nat): (r: seq<T>)
    ensures |r| == if |s| <= n then |s| else n
    ensures forall i :: 0 <= i < |r| ==> r[i] == s[|s| - |r| + i]
  {
    if |s| <= n then s else s[|s| - n..]
  }

  /** Push `m`, then drop the oldest element once the buffer holds more than `Capacity`. */
  function Append<T>(buffer: seq<T>, m: T): (r: seq<T>)
    ensures |r| > 0 && r[|r| - 1] == m
    ensures |buffer| < Capacity ==> r == buffer + [m]
    ensures |buffer| == Capacity ==> r == buffer[1..] + [m]
    ensures |buffer| <= Capacity ==> |r| <= Capacity
  {
    var pushed := buffer + [m];
    if |pushed| > Capacity then pushed[1..] else pushed
  }

  /** One iteration of the per-update loop body. */
  function Step(s: State, u: Update, fmt: int -> string): (r: State)
    ensures r.cursor >= s.cursor
    ensures u.updateId < s.cursor ==> r == s
    ensures u.updateId >= s.cursor ==> r.cursor == u.updateId + 1
    ensures SelectPayload(u).None? ==> r.buffer == s.buffer
    ensures u.updateId >= s.cursor && SelectPayload(u).Some? ==>
      r.buffer == Append(s.buffer, ToMessage(u.updateId, SelectPayload(u).value, fmt))
  {
    if u.updateId >= s.cursor then
      var buffer := match SelectPayload(u)
        case None => s.buffer
        case Some(p) => Append(s.buffer, ToMessage(u.updateId, p, fmt));
      State(u.updateId + 1, buffer)
    else
      s
  }

  /** The state after the updates of `us`, in order. */
  function RunBatch(s: State, us: seq<Update>, fmt: int -> string): (r: State)
    ensures r.cursor >= s.cursor
    decreases |us|
  {
    if us == [] then s
    else Step(RunBatch(s, us[..|us| - 1], fmt), us[|us| - 1], fmt)
  }

  /**
   * Whether update `i` of a batch started at cursor `c0` passes the re-check,
   * stated without the cursor: its id is at least `c0` and greater than the id
   * of every update before it in the batch.
   */
  ghost predicate Accepted(c0: int, us: seq<Update>, i: nat)
    requires i < |us|
  {
    us[i].updateId >= c0 && forall j :: 0 <= j < i ==> us[j].updateId < us[i].updateId
  }

  /** The records a batch started at cursor `c0` produces, in arrival order. */
  ghost function Ingested(c0: int, us: seq<Update>, fmt: int -> string): seq<Message>
    decreases |us|
  {
    if us == [] then []
    else
      var k := |us| - 1;
      var p := SelectPayload(us[k]);
      Ingested(c0, us[..k], fmt)
        + if Accepted(c0, us, k) && p.Some? then [ToMessage(us[k].updateId, p.value, fmt)] else []
  }

  /** Record ids are strictly increasing along the sequence. */
  ghost predicate IdsIncreasing(b: seq<Message>)
  {
    forall i, j :: 0 <= i < j < |b| ==> b[i].id < b[j].id
  }

  /**
   * What the ingestion step keeps true of its state: the buffer respects its
   * bound, its ids increase in arrival order, and all of them lie below the cursor.
   */
  ghost predicate Inv(s: State)
  {
    && |s.buffer| <= Capacity
    && IdsIncreasing(s.buffer)
    && forall i :: 0 <= i < |s.buffer| ==> s.buffer[i].id < s.cursor
  }

  lemma StepKeepsInv(s: State, u: Update, fmt: int -> string)
    requires Inv(s)
    ensures Inv(Step(s, u, fmt))
  {
    if u.updateId >= s.cursor && SelectPayload(u).Some? {
      var m := ToMessage(u.updateId, SelectPayload(u).value, fmt);
      AppendKeepsOrder(s.buffer, m, u.updateId + 1);
    }
  }

  /** Appending a record newer than every buffered one keeps the buffer ordered and below `bound`. */
  lemma AppendKeepsOrder(b: seq<Message>, m: Message, bound: int)
    requires |b| <= Capacity && IdsIncreasing(b)
    requires forall i :: 0 <= i < |b| ==> b[i].id < m.id
    requires m.id < bound
    ensures |Append(b, m)| <= Capacity && IdsIncreasing(Append(b, m))
    ensures forall i :: 0 <= i < |Append(b, m)| ==> Append(b, m)[i].id < bound
  {
    var pushed := b + [m];
    forall i, j | 0 <= i < j < |pushed|
      ensures pushed[i].id < pushed[j].id
    {
      assert pushed[i] == b[i];
    }
    var r := Append(b, m);
    if |pushed| > Capacity {
      assert r == pushed[1..];
      forall i, j | 0 <= i < j < |r|
        ensures r[i].id < r[j].id
      {
        assert r[i] == pushed[i + 1] && r[j] == pushed[j + 1];
      }
    }
  }

  lemma {:induction false} BatchKeepsInv(s: State, us: seq<Update>, fmt: int -> string)
    requires Inv(s)
    ensures Inv(RunBatch(s, us, fmt))
    decreases |us|
  {
    if us != [] {
      var k := |us| - 1;
      BatchKeepsInv(s, us[..k], fmt);
      StepKeepsInv(RunBatch(s, us[..k], fmt), us[k], fmt);
    }
  }

  /**
   * The cursor after a batch is the larger of the starting cursor and one past
   * the largest update id in the batch.
   */
  lemma {:induction false} BatchCursor(s: State, us: seq<Update>, fmt: int -> string)
    ensures RunBatch(s, us, fmt).cursor >= s.cursor
    ensures forall j :: 0 <= j < |us| ==> us[j].updateId < RunBatch(s, us, fmt).cursor
    ensures RunBatch(s, us, fmt).cursor == s.cursor
         || exists j :: 0 <= j < |us| && RunBatch(s, us, fmt).cursor == us[j].updateId + 1
    decreases |us|
  {
    if us != [] {
      var k := |us| - 1;
      var prefix := us[..k];
      BatchCursor(s, prefix, fmt);
      var c := RunBatch(s, prefix, fmt).cursor;
      assert forall j :: 0 <= j < k ==> prefix[j] == us[j];
      if us[k].updateId >= c {
        assert RunBatch(s, us, fmt).cursor == us[k].updateId + 1;
      } else {
        assert RunBatch(s, us, fmt).cursor == c;
        if c != s.cursor {
          var j :| 0 <= j < k && c == prefix[j].updateId + 1;
          assert c == us[j].updateId + 1;
        }
      }
    }
  }

  /** The cursor re-check on update `i` passes exactly when `Accepted` holds. */
  lemma AcceptedIff(s: State, us: seq<Update>, i: nat, fmt: int -> string)
    requires i < |us|
    ensures us[i].updateId >= RunBatch(s, us[..i], fmt).cursor <==> Accepted(s.cursor, us, i)
  {
    var prefix := us[..i];
    BatchCursor(s, prefix, fmt);
    var c := RunBatch(s, prefix, fmt).cursor;
    assert forall j :: 0 <= j < i ==> prefix[j] == us[j];
    if Accepted(s.cursor, us, i) && c != s.cursor {
      var j :| 0 <= j < i && c == prefix[j].updateId + 1;
      assert us[j].updateId < us[i].updateId;
    }
  }

  /**
   * From a buffer within its bound, a batch leaves exactly the newest
   * `Capacity` records of the old buffer followed by the batch's records.
   */
  lemma {:induction false} BatchBuffer(s: State, us: seq<Update>, fmt: int -> string)
    requires |s.buffer| <= Capacity
    ensures RunBatch(s, us, fmt).buffer == LastN(s.buffer + Ingested(s.cursor, us, fmt), Capacity)
    decreases |us|
  {
    if us == [] {
      assert s.buffer + [] == s.buffer;
    } else {
      var k := |us| - 1;
      var prefix := us[..k];
      BatchBuffer(s, prefix, fmt);
      AcceptedIff(s, us, k, fmt);
      assert us[..k] == prefix;
      var before := RunBatch(s, prefix, fmt);
      var x := s.buffer + Ingested(s.cursor, prefix, fmt);
      var p := SelectPayload(us[k]);
      if Accepted(s.cursor, us, k) && p.Some? {
        var m := ToMessage(us[k].updateId, p.value, fmt);
        AppendLastN(x, m);
        assert s.buffer + Ingested(s.cursor, us, fmt) == x + [m];
      } else {
        assert s.buffer + Ingested(s.cursor, us, fmt) == x;
      }
    }
  }

  /** Appending to the newest `Capacity` elements keeps the newest `Capacity`. */
  lemma AppendLastN<T>(x: seq<T>, m: T)
    ensures Append(LastN(x, Capacity), m) == LastN(x + [m], Capacity)
  {
    if |x| >= Capacity {
      assert LastN(x, Capacity) == x[|x| - Capacity..];
      assert x[|x| - Capacity..][1..] + [m] == (x + [m])[|x| + 1 - Capacity..];
    }
  }

  /**
   * Trimming the history to its newest `n` elements before adding more does not
   * change the newest `n` afterwards: across successive batches the buffer is
   * the newest `n` records of everything ever ingested.
   */
  lemma LastNAbsorbs<T>(x: seq<T>, y: seq<T>, n: nat)
    ensures LastN(LastN(x, n) + y, n) == LastN(x + y, n)
  {
    if |x| > n {
      var t := x[|x| - n..];
      assert LastN(x, n) == t;
      if |t + y| > n {
        assert (t + y)[|t + y| - n..] == (x + y)[|x + y| - n..];
      } else {
        assert t + y == (x + y)[|x + y| - n..];
      }
    }
  }

  /**
   * Two consecutive poll cycles leave the newest `Capacity` of the old buffer
   * followed by the records of the first batch and then of the second.
   */
  lemma TwoBatchesBuffer(s: State, us1: seq<Update>, us2: seq<Update>, fmt: int -> string)
    requires |s.buffer| <= Capacity
    ensures RunBatch(RunBatch(s, us1, fmt), us2, fmt).buffer
         == LastN(s.buffer + Ingested(s.cursor, us1, fmt)
                  + Ingested(RunBatch(s, us1, fmt).cursor, us2, fmt), Capacity)
  {
    var mid := RunBatch(s, us1, fmt);
    var x := s.buffer + Ingested(s.cursor, us1, fmt);
    var y := Ingested(mid.cursor, us2, fmt);
    BatchBuffer(s, us1, fmt);
    BatchBuffer(mid, us2, fmt);
    LastNAbsorbs(x, y, Capacity);
  }

  /** Ids of the records a batch produces are strictly increasing and not below `c0`. */
  lemma {:induction false} IngestedIdsIncreasing(c0: int, us: seq<Update>, fmt: int -> string)
    ensures IdsIncreasing(Ingested(c0, us, fmt))
    ensures forall i :: 0 <= i < |Ingested(c0, us, fmt)| ==> Ingested(c0, us, fmt)[i].id >= c0
    ensures forall i :: 0 <= i < |Ingested(c0, us, fmt)| ==>
      exists j :: 0 <= j < |us| && Ingested(c0, us, fmt)[i].id == us[j].updateId
    decreases |us|
  {
    if us != [] {
      var k := |us| - 1;
      var prefix := us[..k];
      IngestedIdsIncreasing(c0, prefix, fmt);
      assert forall j :: 0 <= j < k ==> prefix[j] == us[j];
      var head := Ingested(c0, prefix, fmt);
      var all := Ingested(c0, us, fmt);
      var p := SelectPayload(us[k]);
      if Accepted(c0, us, k) && p.Some? {
        assert all == head + [ToMessage(us[k].updateId, p.value, fmt)];
        forall i | 0 <= i < |head|
          ensures head[i].id < us[k].updateId
        {
          var j :| 0 <= j < k && head[i].id == prefix[j].updateId;
        }
        forall i | 0 <= i < |all|
          ensures exists j :: 0 <= j < |us| && all[i].id == us[j].updateId
        {
          if i < |head| {
            var j :| 0 <= j < k && head[i].id == prefix[j].updateId;
            assert all[i].id == us[j].updateId;
          } else {
            assert all[i].id == us[k].updateId;
          }
        }
      } else {
        assert all == head;
        forall i | 0 <= i < |all|
          ensures exists j :: 0 <= j < |us| && all[i].id == us[j].updateId
        {
          var j :| 0 <= j < k && head[i].id == prefix[j].updateId;
          assert all[i].id == us[j].updateId;
        }
      }
    }
  }

  /**
   * A batch whose ids strictly increase from at least the cursor and whose
   * updates all carry a payload is taken in whole, one record per update.
   */
  lemma {:induction false} FreshBatchTakenWhole(c0: int, us: seq<Update>, fmt: int -> string)
    requires forall j, k :: 0 <= j < k < |us| ==> us[j].updateId < us[k].updateId
    requires |us| > 0 ==> us[0].updateId >= c0
    requires forall i :: 0 <= i < |us| ==> SelectPayload(us[i]).Some?
    ensures |Ingested(c0, us, fmt)| == |us|
    ensures forall i :: 0 <= i < |us| ==>
      Ingested(c0, us, fmt)[i] == ToMessage(us[i].updateId, SelectPayload(us[i]).value, fmt)
    decreases |us|
  {
    if us != [] {
      var k := |us| - 1;
      var prefix := us[..k];
      FreshBatchTakenWhole(c0, prefix, fmt);
      assert forall j :: 0 <= j < k ==> prefix[j] == us[j];
      assert us[k].updateId >= c0 by {
        if k > 0 { assert us[0].updateId < us[k].updateId; }
      }
      assert Accepted(c0, us, k);
    }
  }

  /**
   * Fifty-one accepted records into an empty buffer leave records 2 to 51:
   * the first arrival is evicted and the rest stay in arrival order.
   */
  lemma OverflowEvictsOldest(s: State, us: seq<Update>, fmt: int -> string)
    requires s.buffer == []
    requires |Ingested(s.cursor, us, fmt)| == Capacity + 1
    ensures RunBatch(s, us, fmt).buffer == Ingested(s.cursor, us, fmt)[1..]
  {
    BatchBuffer(s, us, fmt);
    assert s.buffer + Ingested(s.cursor, us, fmt) == Ingested(s.cursor, us, fmt);
  }

  /**
   * The scenario of fifty-one fresh messages from the initial state: exactly
   * the records of updates 2 to 51 remain, oldest first, and the cursor is one
   * past the last id.
   */
  lemma {:induction false} FiftyOneMessages(us: seq<Update>, fmt: int -> string)
    requires |us| == Capacity + 1
    requires forall j, k :: 0 <= j < k < |us| ==> us[j].updateId < us[k].updateId
    requires us[0].updateId >= 0
    requires forall i :: 0 <= i < |us| ==> SelectPayload(us[i]).Some?
    ensures |RunBatch(State(0, []), us, fmt).buffer| == Capacity
    ensures forall i :: 0 <= i < Capacity ==>
      RunBatch(State(0, []), us, fmt).buffer[i]
        == ToMessage(us[i + 1].updateId, SelectPayload(us[i + 1]).value, fmt)
    ensures RunBatch(State(0, []), us, fmt).cursor == us[Capacity].updateId + 1
  {
    FreshBatchTakenWhole(0, us, fmt);
    OverflowEvictsOldest(State(0, []), us, fmt);
    var records := Ingested(0, us, fmt);
    var buffer := RunBatch(State(0, []), us, fmt).buffer;
    assert buffer == records[1..];
    forall i | 0 <= i < Capacity
      ensures buffer[i] == ToMessage(us[i + 1].updateId, SelectPayload(us[i + 1]).value, fmt)
    {
      assert buffer[i] == records[i + 1];
    }
    BatchCursor(State(0, []), us, fmt);
  }
}
