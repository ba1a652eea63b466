/**
 * What the relay in main does, as the sequence of calls it makes on its two
 * DataLink connections and on the state file, and the properties of such
 * sequences: delivery of each packet by retrying, the link state each call
 * sees, and the cadence of intermediate state saves.
 */
module Events {
  import opened Wrappers
  import opened Link

  datatype Side = Source | Destination

  function Other(side: Side): Side {
    if side == Source then Destination else Source
  }

  /** One call of main on a connection or the state file, with its outcome. */
  datatype Event =
    | Connected(side: Side, ok: bool)   // dl_connect
    | Disconnected(side: Side)          // dl_disconnect
    | Lost(side: Side)                  // a failing call closed the socket
    | Positioned(to: Cursor, ok: bool)  // dl_position on the source
    | Matched(pattern: string, ok: bool)
    | Rejected(pattern: string, ok: bool)
    | Collected(p: Packet)              // dl_collect returned DLPACKET
    | Written(p: Packet, ok: bool)      // dl_write to the destination
    | Slept                             // sleep(10)
    | Saved(at: Cursor, result: int)    // dl_savestate

  /** How one failed dl_write goes: whether it closed the socket, and whether the reconnect succeeds. */
  datatype Retry = Retry(lost: bool, reconnects: bool)

  /**
   * The calls that deliver packet `p` when the destination link is `up`
   * and the writes fail once per entry of `retries` before one succeeds:
   * after each failed write the destination is disconnected if its link is
   * still open, then connected again, with a sleep when that fails.
   */
  function Delivery(p: Packet, retries: seq<Retry>, up: bool): seq<Event>
    decreases |retries|
  {
    if retries == [] then [Written(p, true)]
    else
      RetryEvents(p, retries[0], up) + Delivery(p, retries[1..], retries[0].reconnects)
  }

  function RetryEvents(p: Packet, r: Retry, up: bool): seq<Event> {
    [Written(p, false)] + Drop(r, up) + Reconnect(r)
  }

  /** After a failed write: dl_disconnect when the link is still open, nothing when the write closed it. */
  function Drop(r: Retry, up: bool): seq<Event> {
    if up && r.lost then [Lost(Destination)]
    else if up then [Disconnected(Destination)]
    else []
  }

  /** The reconnect attempt, followed by a sleep when it fails. */
  function Reconnect(r: Retry): seq<Event> {
    if r.reconnects then [Connected(Destination, true)]
    else [Connected(Destination, false), Slept]
  }

  /** Whether the destination link is open after a delivery that started with it `up`. */
  function UpAfter(retries: seq<Retry>, up: bool): bool {
    if retries == [] then up else retries[|retries| - 1].reconnects
  }

  // ------------------------------------------------------------- milestones

  /** Collections and successful writes: the events that move data. */
  predicate IsMilestone(e: Event) {
    e.Collected? || (e.Written? && e.ok)
  }

  function Milestones(es: seq<Event>): seq<Event> {
    if es == [] then []
    else Milestones(es[..|es| - 1]) + (if IsMilestone(es[|es| - 1]) then [es[|es| - 1]] else [])
  }

  lemma {:induction false} MilestonesAppend(a: seq<Event>, b: seq<Event>)
    ensures Milestones(a + b) == Milestones(a) + Milestones(b)
    decreases |b|
  {
    if b == [] {
      assert a + b == a;
    } else {
      var n := |b| - 1;
      assert (a + b)[..|a + b| - 1] == a + b[..n];
      assert (a + b)[|a + b| - 1] == b[n];
      MilestonesAppend(a, b[..n]);
    }
  }

  /** Each packet collected and then written once, in order. */
  function Interleave(ps: seq<Packet>): seq<Event> {
    if ps == [] then []
    else Interleave(ps[..|ps| - 1]) + [Collected(ps[|ps| - 1]), Written(ps[|ps| - 1], true)]
  }

  function Forwarded(es: seq<Event>): seq<Packet> {
    if es == [] then []
    else
      var e := es[|es| - 1];
      Forwarded(es[..|es| - 1]) + (if e.Written? && e.ok then [e.p] else [])
  }

  /**
   * When collections and successful writes alternate as Interleave says,
   * the packets written are exactly the packets collected, in the same
   * order, none skipped and none repeated.
   */
  lemma {:induction false} InterleaveForwards(ps: seq<Packet>, es: seq<Event>)
    requires Milestones(es) == Interleave(ps)
    ensures Forwarded(es) == ps
    decreases |es|
  {
    ForwardedOfMilestones(es);
    ForwardedInterleave(ps);
  }

  lemma {:induction false} ForwardedOfMilestones(es: seq<Event>)
    ensures Forwarded(Milestones(es)) == Forwarded(es)
    decreases |es|
  {
    if es != [] {
      var init := es[..|es| - 1];
      var e := es[|es| - 1];
      ForwardedOfMilestones(init);
      var tail := if IsMilestone(e) then [e] else [];
      ForwardedAppend(Milestones(init), tail);
    }
  }

  lemma {:induction false} ForwardedAppend(a: seq<Event>, b: seq<Event>)
    ensures Forwarded(a + b) == Forwarded(a) + Forwarded(b)
    decreases |b|
  {
    if b == [] {
      assert a + b == a;
    } else {
      var n := |b| - 1;
      assert (a + b)[..|a + b| - 1] == a + b[..n];
      assert (a + b)[|a + b| - 1] == b[n];
      ForwardedAppend(a, b[..n]);
    }
  }

  lemma {:induction false} ForwardedInterleave(ps: seq<Packet>)
    ensures Forwarded(Interleave(ps)) == ps
    decreases |ps|
  {
    if ps != [] {
      var init := ps[..|ps| - 1];
      var p := ps[|ps| - 1];
      ForwardedInterleave(init);
      ForwardedAppend(Interleave(init), [Collected(p), Written(p, true)]);
      assert [Collected(p), Written(p, true)][..1] == [Collected(p)];
      assert [Collected(p)][..0] == [];
      assert Forwarded([Collected(p)]) == [];
      assert Forwarded([Collected(p), Written(p, true)]) == [p];
      assert init + [p] == ps;
    }
  }

  /** A delivery moves its packet exactly once: its only milestone is the final successful write. */
  lemma {:induction false} DeliveryMilestones(p: Packet, retries: seq<Retry>, up: bool)
    ensures Milestones(Delivery(p, retries, up)) == [Written(p, true)]
    decreases |retries|
  {
    if retries == [] {
      assert Milestones([Written(p, true)]) == Milestones([]) + [Written(p, true)];
    } else {
      var head := RetryEvents(p, retries[0], up);
      RetryHasNoMilestone(p, retries[0], up);
      DeliveryMilestones(p, retries[1..], retries[0].reconnects);
      MilestonesAppend(head, Delivery(p, retries[1..], retries[0].reconnects));
    }
  }

  lemma RetryHasNoMilestone(p: Packet, r: Retry, up: bool)
    ensures Milestones(RetryEvents(p, r, up)) == []
    ensures SavedAt(RetryEvents(p, r, up)) == []
  {
    var es := RetryEvents(p, r, up);
    forall i | 0 <= i < |es|
      ensures !IsMilestone(es[i]) && !es[i].Saved?
    {
    }
    NoMilestones(es);
    NoSaves(es);
  }

  lemma {:induction false} NoMilestones(es: seq<Event>)
    requires forall i | 0 <= i < |es| :: !IsMilestone(es[i])
    ensures Milestones(es) == []
    decreases |es|
  {
    if es != [] {
      NoMilestones(es[..|es| - 1]);
    }
  }

  // ------------------------------------------------------------------ saves

  /** The cursors written by the state saves, in order. */
  function SavedAt(es: seq<Event>): seq<Cursor> {
    if es == [] then []
    else
      var e := es[|es| - 1];
      SavedAt(es[..|es| - 1]) + (if e.Saved? then [e.at] else [])
  }

  lemma {:induction false} SavedAtAppend(a: seq<Event>, b: seq<Event>)
    ensures SavedAt(a + b) == SavedAt(a) + SavedAt(b)
    decreases |b|
  {
    if b == [] {
      assert a + b == a;
    } else {
      var n := |b| - 1;
      assert (a + b)[..|a + b| - 1] == a + b[..n];
      assert (a + b)[|a + b| - 1] == b[n];
      SavedAtAppend(a, b[..n]);
    }
  }

  lemma {:induction false} NoSaves(es: seq<Event>)
    requires forall i | 0 <= i < |es| :: !es[i].Saved?
    ensures SavedAt(es) == []
    decreases |es|
  {
    if es != [] {
      NoSaves(es[..|es| - 1]);
    }
  }

  /** Delivering a packet saves nothing. */
  lemma {:induction false} DeliveryHasNoSave(p: Packet, retries: seq<Retry>, up: bool)
    ensures SavedAt(Delivery(p, retries, up)) == []
    decreases |retries|
  {
    if retries == [] {
      assert SavedAt([Written(p, true)]) == SavedAt([]) + [];
    } else {
      RetryHasNoMilestone(p, retries[0], up);
      DeliveryHasNoSave(p, retries[1..], retries[0].reconnects);
      SavedAtAppend(RetryEvents(p, retries[0], up), Delivery(p, retries[1..], retries[0].reconnects));
    }
  }

  // -------------------------------------------------------------- link state

  /**
   * Whether the link of `side` is open after the calls `es`, starting from
   * a descriptor that is not connected.
   */
  function LinkUp(es: seq<Event>, side: Side): bool {
    if es == [] then false
    else
      var e := es[|es| - 1];
      if e.Connected? && e.side == side then e.ok
      else if (e.Disconnected? || e.Lost?) && e.side == side then false
      else LinkUp(es[..|es| - 1], side)
  }

  /** Every dl_disconnect is made on a connection whose link is open. */
  predicate DisconnectsOnlyLive(es: seq<Event>) {
    es == [] ||
    (DisconnectsOnlyLive(es[..|es| - 1]) &&
     (es[|es| - 1].Disconnected? ==> LinkUp(es[..|es| - 1], es[|es| - 1].side)))
  }

  lemma AppendLive(es: seq<Event>, e: Event)
    requires DisconnectsOnlyLive(es)
    requires e.Disconnected? ==> LinkUp(es, e.side)
    ensures DisconnectsOnlyLive(es + [e])
    ensures LinkUp(es + [e], Source) == Next(LinkUp(es, Source), e, Source)
    ensures LinkUp(es + [e], Destination) == Next(LinkUp(es, Destination), e, Destination)
  {
    assert (es + [e])[..|es|] == es;
  }

  /** One call appended: its effect on the link states, the milestones and the saves. */
  lemma AppendCall(es: seq<Event>, e: Event)
    requires DisconnectsOnlyLive(es)
    requires e.Disconnected? ==> LinkUp(es, e.side)
    ensures DisconnectsOnlyLive(es + [e])
    ensures LinkUp(es + [e], Source) == Next(LinkUp(es, Source), e, Source)
    ensures LinkUp(es + [e], Destination) == Next(LinkUp(es, Destination), e, Destination)
    ensures Milestones(es + [e]) == Milestones(es) + (if IsMilestone(e) then [e] else [])
    ensures SavedAt(es + [e]) == SavedAt(es) + (if e.Saved? then [e.at] else [])
  {
    AppendLive(es, e);
    assert (es + [e])[..|es|] == es;
  }

  /** A request main sends on the source link, which leaves both links as they are. */
  predicate IsRequest(e: Event) {
    e.Positioned? || e.Matched? || e.Rejected?
  }

  /** Requests change neither link, the milestones nor the saves. */
  lemma {:induction false} AppendRequests(es: seq<Event>, qs: seq<Event>)
    requires DisconnectsOnlyLive(es)
    requires forall k | 0 <= k < |qs| :: IsRequest(qs[k])
    ensures DisconnectsOnlyLive(es + qs)
    ensures LinkUp(es + qs, Source) == LinkUp(es, Source)
    ensures LinkUp(es + qs, Destination) == LinkUp(es, Destination)
    ensures Milestones(es + qs) == Milestones(es) && SavedAt(es + qs) == SavedAt(es)
    decreases |qs|
  {
    if qs == [] {
      assert es + qs == es;
    } else {
      var init, last := qs[..|qs| - 1], qs[|qs| - 1];
      assert IsRequest(last);
      AppendRequests(es, init);
      AppendCall(es + init, last);
      assert es + qs == es + init + [last] by { assert init + [last] == qs; }
    }
  }

  /** The link state of `side` after event `e`, from the state before it. */
  function Next(up: bool, e: Event, side: Side): bool {
    if e.Connected? && e.side == side then e.ok
    else if (e.Disconnected? || e.Lost?) && e.side == side then false
    else up
  }

  lemma AppendDropLive(es: seq<Event>, r: Retry)
    requires DisconnectsOnlyLive(es)
    ensures DisconnectsOnlyLive(es + Drop(r, LinkUp(es, Destination)))
    ensures !LinkUp(es + Drop(r, LinkUp(es, Destination)), Destination)
    ensures LinkUp(es + Drop(r, LinkUp(es, Destination)), Source) == LinkUp(es, Source)
  {
    var d := Drop(r, LinkUp(es, Destination));
    if d == [] {
      assert es + d == es;
    } else {
      AppendLive(es, d[0]);
      assert es + d == es + [d[0]];
    }
  }

  lemma AppendReconnectLive(es: seq<Event>, r: Retry)
    requires DisconnectsOnlyLive(es)
    ensures DisconnectsOnlyLive(es + Reconnect(r))
    ensures LinkUp(es + Reconnect(r), Destination) == r.reconnects
    ensures LinkUp(es + Reconnect(r), Source) == LinkUp(es, Source)
  {
    var c := Connected(Destination, r.reconnects);
    var e1 := es + [c];
    AppendLive(es, c);
    if r.reconnects {
      assert Reconnect(r) == [c];
    } else {
      AppendLive(e1, Slept);
      assert Reconnect(r) == [c, Slept];
      assert es + Reconnect(r) == e1 + [Slept];
    }
  }

  lemma AppendRetryLive(es: seq<Event>, p: Packet, r: Retry)
    requires DisconnectsOnlyLive(es)
    ensures DisconnectsOnlyLive(es + RetryEvents(p, r, LinkUp(es, Destination)))
    ensures LinkUp(es + RetryEvents(p, r, LinkUp(es, Destination)), Destination) == r.reconnects
    ensures LinkUp(es + RetryEvents(p, r, LinkUp(es, Destination)), Source) == LinkUp(es, Source)
  {
    var up := LinkUp(es, Destination);
    var e1 := es + [Written(p, false)];
    AppendLive(es, Written(p, false));
    AppendDropLive(e1, r);
    var e2 := e1 + Drop(r, up);
    AppendReconnectLive(e2, r);
    assert es + RetryEvents(p, r, up) == e2 + Reconnect(r);
  }

  /**
   * A delivery keeps every disconnect on an open link, leaves the
   * destination open exactly when its last reconnect succeeded, and does not
   * touch the source.
   */
  lemma {:induction false} DeliveryLive(es: seq<Event>, p: Packet, retries: seq<Retry>)
    requires DisconnectsOnlyLive(es)
    ensures var all := es + Delivery(p, retries, LinkUp(es, Destination));
      DisconnectsOnlyLive(all) &&
      LinkUp(all, Destination) == UpAfter(retries, LinkUp(es, Destination)) &&
      LinkUp(all, Source) == LinkUp(es, Source)
    decreases |retries|
  {
    var up := LinkUp(es, Destination);
    if retries == [] {
      AppendLive(es, Written(p, true));
    } else {
      var r := retries[0];
      var es' := es + RetryEvents(p, r, up);
      AppendRetryLive(es, p, r);
      DeliveryLive(es', p, retries[1..]);
      var rest := Delivery(p, retries[1..], r.reconnects);
      assert Delivery(p, retries, up) == RetryEvents(p, r, up) + rest;
      RetryStep(es, p, retries, up);
      if |retries| > 1 {
        assert retries[1..][|retries[1..]| - 1] == retries[|retries| - 1];
      }
    }
  }

  /** One failed write and what follows it extend the delivery by RetryEvents. */
  lemma RetryStep(before: seq<Event>, p: Packet, retries: seq<Retry>, up: bool)
    requires retries != []
    ensures before + RetryEvents(p, retries[0], up) + Delivery(p, retries[1..], retries[0].reconnects) ==
      before + Delivery(p, retries, up)
  {
    var head, rest := RetryEvents(p, retries[0], up), Delivery(p, retries[1..], retries[0].reconnects);
    assert before + (head + rest) == before + head + rest;
  }

  // ------------------------------------------------------------ one record

  /** The intermediate save after a record, when one is made, with its result. */
  function SaveEvent(at: Cursor, saved: Option<int>): seq<Event> {
    if saved.Some? then [Saved(at, saved.value)] else []
  }

  /**
   * The collect loop on the packet at index `i`: the events for the
   * packets before it become the events for the packets up to it.
   */
  lemma ForwardStep(es: seq<Event>, packets: seq<Packet>, i: nat, n: nat, retries: seq<Retry>, saved: Option<int>)
    requires i < |packets|
    requires DisconnectsOnlyLive(es)
    requires Milestones(es) == Interleave(packets[..i]) && SavedAt(es) == Checkpoints(packets[..i], n)
    requires saved.Some? <==> SavesAtRecord(i + 1, n)
    ensures var p, up := packets[i], LinkUp(es, Destination);
      var es' := es + [Collected(p)] + Delivery(p, retries, up) + SaveEvent(p.Position(), saved);
      es <= es' && DisconnectsOnlyLive(es') &&
      Milestones(es') == Interleave(packets[..i + 1]) &&
      SavedAt(es') == Checkpoints(packets[..i + 1], n) &&
      LinkUp(es', Destination) == UpAfter(retries, up) &&
      LinkUp(es', Source) == LinkUp(es, Source)
    ensures |Checkpoints(packets[..i + 1], n)| == |Checkpoints(packets[..i], n)| + (if saved.Some? then 1 else 0)
  {
    assert packets[..i + 1] == packets[..i] + [packets[i]];
    assert packets[..i + 1][..i] == packets[..i];
    CollectStep(es, packets[..i], n, packets[i], retries, saved);
  }

  /**
   * One turn of the collect loop: collecting `p`, delivering it, and saving
   * the state after it exactly when the counter calls for it. It extends
   * the interleaving of collections and writes by `p`, adds the save to
   * the checkpoints, keeps every disconnect on an open link and leaves the
   * source link as it was.
   */
  lemma CollectStep(es: seq<Event>, ps: seq<Packet>, n: nat, p: Packet, retries: seq<Retry>, saved: Option<int>)
    requires DisconnectsOnlyLive(es)
    requires Milestones(es) == Interleave(ps) && SavedAt(es) == Checkpoints(ps, n)
    requires saved.Some? <==> SavesAtRecord(|ps| + 1, n)
    ensures var up := LinkUp(es, Destination);
      var es' := es + [Collected(p)] + Delivery(p, retries, up) + SaveEvent(p.Position(), saved);
      es <= es' && DisconnectsOnlyLive(es') &&
      Milestones(es') == Interleave(ps + [p]) &&
      SavedAt(es') == Checkpoints(ps + [p], n) &&
      LinkUp(es', Destination) == UpAfter(retries, up) &&
      LinkUp(es', Source) == LinkUp(es, Source)
  {
    var up := LinkUp(es, Destination);
    var e1 := es + [Collected(p)];
    var e2 := e1 + Delivery(p, retries, up);
    AppendCall(es, Collected(p));
    DeliveryLive(e1, p, retries);
    ForwardData(es, ps, p, retries, up);
    ForwardSave(e2, ps, n, p, saved);
    assert (e2 + SaveEvent(p.Position(), saved))[..|es|] == es;
  }

  lemma ForwardData(es: seq<Event>, ps: seq<Packet>, p: Packet, retries: seq<Retry>, up: bool)
    requires Milestones(es) == Interleave(ps)
    ensures var es' := es + [Collected(p)] + Delivery(p, retries, up);
      Milestones(es') == Interleave(ps + [p]) && SavedAt(es') == SavedAt(es)
  {
    var e1 := es + [Collected(p)];
    var d := Delivery(p, retries, up);
    assert e1[..|es|] == es;
    DeliveryMilestones(p, retries, up);
    DeliveryHasNoSave(p, retries, up);
    MilestonesAppend(e1, d);
    SavedAtAppend(e1, d);
    assert (ps + [p])[..|ps|] == ps;
  }

  lemma ForwardSave(es: seq<Event>, ps: seq<Packet>, n: nat, p: Packet, saved: Option<int>)
    requires Milestones(es) == Interleave(ps + [p]) && SavedAt(es) == Checkpoints(ps, n)
    requires saved.Some? <==> SavesAtRecord(|ps| + 1, n)
    ensures var es' := es + SaveEvent(p.Position(), saved);
      Milestones(es') == Interleave(ps + [p]) && SavedAt(es') == Checkpoints(ps + [p], n) &&
      (DisconnectsOnlyLive(es) ==> DisconnectsOnlyLive(es')) &&
      LinkUp(es', Source) == LinkUp(es, Source) && LinkUp(es', Destination) == LinkUp(es, Destination)
  {
    var e := Saved(p.Position(), 0);
    if saved.Some? {
      e := Saved(p.Position(), saved.value);
      assert es + SaveEvent(p.Position(), saved) == es + [e];
      assert (es + [e])[..|es|] == es;
    } else {
      assert es + SaveEvent(p.Position(), saved) == es;
    }
    assert (ps + [p])[..|ps|] == ps;
  }

  // ------------------------------------------------------------ checkpoints

  /**
   * packetcnt after `k` records with a saving interval of n: incremented
   * before the `>= n` test and again after it, and reset to 0 before the
   * second increment when a save is made.
   */
  function CounterAfter(k: nat, n: nat): nat {
    if k == 0 then 0
    else
      var c := CounterAfter(k - 1, n);
      if c + 1 >= n then 1 else c + 2
  }

  /** Whether the k-th record (counting from 1) triggers a save. */
  predicate SavesAtRecord(k: nat, n: nat) {
    n > 0 && k >= 1 && CounterAfter(k - 1, n) + 1 >= n
  }

  /** The cursors of the intermediate saves made while collecting `ps`. */
  function Checkpoints(ps: seq<Packet>, n: nat): seq<Cursor> {
    if ps == [] then []
    else
      Checkpoints(ps[..|ps| - 1], n) +
      (if SavesAtRecord(|ps|, n) then [ps[|ps| - 1].Position()] else [])
  }

  /** The record of the first intermediate save: n/2 + 1. */
  function FirstCheckpoint(n: nat): nat {
    n / 2 + 1
  }

  /** The number of records between later saves: (n + 1)/2, about half the interval asked for. */
  function Period(n: nat): nat {
    (n + 1) / 2
  }

  lemma {:induction false} CounterBeforeFirst(n: nat, k: nat)
    requires n >= 1 && k < FirstCheckpoint(n)
    ensures CounterAfter(k, n) == 2 * k
    decreases k
  {
    if k > 0 {
      CounterBeforeFirst(n, k - 1);
    }
  }

  lemma {:induction false} CounterAfterSave(n: nat, k: nat, j: nat)
    requires n >= 1 && CounterAfter(k, n) == 1 && j < Period(n)
    ensures CounterAfter(k + j, n) == 1 + 2 * j
    decreases j
  {
    if j > 0 {
      CounterAfterSave(n, k, j - 1);
    }
  }

  lemma CounterPeriodStart(n: nat, k: nat)
    requires n >= 1 && CounterAfter(k, n) == 1
    ensures CounterAfter(k + Period(n), n) == 1
  {
    CounterAfterSave(n, k, Period(n) - 1);
  }

  lemma {:induction false} CounterPeriodic(n: nat, k: nat)
    requires n >= 1 && k >= FirstCheckpoint(n)
    ensures CounterAfter(k + Period(n), n) == CounterAfter(k, n)
    decreases k
  {
    if k == FirstCheckpoint(n) {
      CounterBeforeFirst(n, k - 1);
      CounterPeriodStart(n, k);
    } else {
      CounterPeriodic(n, k - 1);
      assert CounterAfter(k + Period(n), n) == CounterAfter(k - 1 + Period(n) + 1, n);
    }
  }

  /**
   * The cadence of intermediate saves with interval n >= 1: none before
   * record n/2 + 1, one there, none in the following (n + 1)/2 - 1 records,
   * and from then on the pattern repeats every (n + 1)/2 records.
   */
  lemma CheckpointCadence(n: nat, k: nat)
    requires n >= 1
    ensures k < FirstCheckpoint(n) ==> !SavesAtRecord(k, n)
    ensures SavesAtRecord(FirstCheckpoint(n), n)
    ensures FirstCheckpoint(n) < k < FirstCheckpoint(n) + Period(n) ==> !SavesAtRecord(k, n)
    ensures k >= FirstCheckpoint(n) ==> (SavesAtRecord(k + Period(n), n) <==> SavesAtRecord(k, n))
  {
    var f := FirstCheckpoint(n);
    var p := Period(n);
    CounterBeforeFirst(n, f - 1);
    if 1 <= k < f {
      CounterBeforeFirst(n, k - 1);
    }
    assert CounterAfter(f, n) == 1;
    if f < k < f + p {
      CounterAfterSave(n, f, k - 1 - f);
    }
    if k == f {
      CounterAfterSave(n, f, p - 1);
    } else if k > f {
      CounterPeriodic(n, k - 1);
      assert k + p - 1 == (k - 1) + p;
    }
  }

  /** packetcnt never exceeds the interval, so the int counter cannot overflow. */
  lemma {:induction false} CounterBounded(n: nat, k: nat)
    requires n >= 1
    ensures 1 <= CounterAfter(k, n) <= n || k == 0
    decreases k
  {
    if k > 0 {
      CounterBounded(n, k - 1);
    }
  }
}
