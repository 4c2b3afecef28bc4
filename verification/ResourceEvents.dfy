/**
 * One subscription of the resource event stream: a bounded channel with one publisher and one
 * consumer. `stream` is what the consumer has received followed by what is queued for it.
 */
module ResourceEvents {
  import opened Basics

  const BUFFER: nat := 64

  datatype Resource = Resource(namespace: string, kind: string)

  // `at` numbers the matching publications. A reset carries the number of the publication that raised it.
  datatype Event = Published(at: nat, resource: Option<Resource>) | Reset(at: nat)

  ghost predicate Ordered(stream: seq<Event>) {
    forall i, j | 0 <= i < j < |stream| :: stream[i].at < stream[j].at
  }

  // Nothing but publications appears, in their own words, and a reset is raised only by a loss.
  ghost predicate Genuine(offered: seq<Option<Resource>>, lost: map<nat, nat>, stream: seq<Event>, e: Event) {
    e in stream ==> e.at < |offered| && (if e.Reset? then e.at in lost else e.resource == offered[e.at])
  }

  // A publication is lost exactly when it is not in the stream, and never later than the last loss.
  ghost predicate Settled(offered: seq<Option<Resource>>, lost: map<nat, nat>, lastLoss: int, stream: seq<Event>,
                          n: nat) {
    && (n < |offered| ==> (n in lost <==> Published(n, offered[n]) !in stream))
    && (n in lost ==> n <= lost[n] <= lastLoss)
  }

  // Every matching publication is in the stream or recorded as lost, with the publication whose overflow
  // lost it; `lastLoss` is the latest such publication, or -1, and its reset is in the stream.
  ghost predicate Accounts(offered: seq<Option<Resource>>, stream: seq<Event>, lost: map<nat, nat>, lastLoss: int) {
    && Ordered(stream)
    && (forall e :: Genuine(offered, lost, stream, e))
    && (forall n :: Settled(offered, lost, lastLoss, stream, n))
    && -1 <= lastLoss < |offered| && (lastLoss >= 0 ==> Reset(lastLoss) in stream)
  }

  lemma OrderedMore(stream: seq<Event>, e: Event)
    requires Ordered(stream) && forall i | 0 <= i < |stream| :: stream[i].at < e.at
    ensures Ordered(stream + [e])
  {
  }

  lemma SendKeeps(offered: seq<Option<Resource>>, stream: seq<Event>, lost: map<nat, nat>, lastLoss: int,
                  resource: Option<Resource>)
    requires Accounts(offered, stream, lost, lastLoss)
    ensures Accounts(offered + [resource], stream + [Published(|offered|, resource)], lost, lastLoss)
  {
    var more, next := offered + [resource], stream + [Published(|offered|, resource)];
    forall i | 0 <= i < |stream| ensures stream[i].at < |offered| { assert Genuine(offered, lost, stream, stream[i]); }
    OrderedMore(stream, Published(|offered|, resource));
    forall e ensures Genuine(more, lost, next, e) { assert Genuine(offered, lost, stream, e); }
    forall n ensures Settled(more, lost, lastLoss, next, n) {
      assert Settled(offered, lost, lastLoss, stream, n);
      assert next[|stream|] == Published(|offered|, resource);
    }
  }

  // The stream without the evicted entry, if one was evicted.
  function Without(stream: seq<Event>, evicted: Option<nat>): seq<Event>
    requires evicted.Some? ==> evicted.value < |stream|
  {
    if evicted.None? then stream else stream[..evicted.value] + stream[evicted.value + 1..]
  }

  lemma WithoutKeeps(stream: seq<Event>, evicted: Option<nat>, e: Event)
    requires evicted.Some? ==> evicted.value < |stream|
    requires Ordered(stream)
    ensures Ordered(Without(stream, evicted))
    ensures e in Without(stream, evicted) <==> e in stream && (evicted.Some? ==> e.at != stream[evicted.value].at)
  {
    if evicted.Some? && e in stream {
      var k := evicted.value;
      var i :| 0 <= i < |stream| && stream[i] == e;
      if i < k {
        assert Without(stream, evicted)[i] == e;
      } else if i > k {
        assert Without(stream, evicted)[i - 1] == e;
      }
    }
  }

  // The stream after an overflow at `at`, while the consumer went on from `from` to `to`.
  ghost predicate Overflowed(before: seq<Event>, after: seq<Event>, from: nat, to: nat, at: int) {
    at >= 0 && exists evicted: Option<nat> ::
      && (evicted.Some? ==> from <= evicted.value < |before| && evicted.value <= to)
      && (evicted.None? ==> to >= |before|)
      && after == Without(before, evicted) + [Reset(at)]
  }

  function LostBy(at: nat, stream: seq<Event>, lost: map<nat, nat>, evicted: Option<nat>): map<nat, nat>
    requires evicted.Some? ==> evicted.value < |stream|
  {
    if evicted.None? then lost[at := at] else lost[at := at][stream[evicted.value].at := at]
  }

  // An overflow loses the publication, and at most the entry at `evicted`; its reset comes last.
  lemma OverflowKeeps(offered: seq<Option<Resource>>, stream: seq<Event>, lost: map<nat, nat>, lastLoss: int,
                      resource: Option<Resource>, evicted: Option<nat>, kept: seq<Event>, next: seq<Event>)
    requires Accounts(offered, stream, lost, lastLoss)
    requires evicted.Some? ==> evicted.value < |stream|
    requires kept == Without(stream, evicted) && next == kept + [Reset(|offered|)]
    ensures Accounts(offered + [resource], next, LostBy(|offered|, stream, lost, evicted), |offered|)
    ensures |offered| in LostBy(|offered|, stream, lost, evicted)
  {
    var at := |offered|;
    var more, gone := offered + [resource], LostBy(at, stream, lost, evicted);
    assert next[|kept|] == Reset(at);
    forall e ensures e in next <==> e == Reset(at) || e in kept {}
    forall i | 0 <= i < |kept| ensures kept[i].at < at {
      WithoutKeeps(stream, evicted, kept[i]);
      assert Genuine(offered, lost, stream, kept[i]);
    }
    WithoutKeeps(stream, evicted, Reset(at));
    OrderedMore(kept, Reset(at));
    forall e ensures Genuine(more, gone, next, e) {
      WithoutKeeps(stream, evicted, e);
      assert Genuine(offered, lost, stream, e);
    }
    forall n ensures Settled(more, gone, at, next, n) {
      OverflowSettles(offered, stream, lost, lastLoss, resource, evicted, n);
    }
  }

  lemma OverflowSettles(offered: seq<Option<Resource>>, stream: seq<Event>, lost: map<nat, nat>, lastLoss: int,
                        resource: Option<Resource>, evicted: Option<nat>, n: nat)
    requires Accounts(offered, stream, lost, lastLoss)
    requires evicted.Some? ==> evicted.value < |stream|
    ensures Settled(offered + [resource], LostBy(|offered|, stream, lost, evicted), |offered|,
                    Without(stream, evicted) + [Reset(|offered|)], n)
  {
    assert Settled(offered, lost, lastLoss, stream, n);
    if evicted.Some? { assert Genuine(offered, lost, stream, stream[evicted.value]); }
    if n <= |offered| {
      var p := Published(n, (offered + [resource])[n]);
      WithoutKeeps(stream, evicted, p);
      assert Genuine(offered, lost, stream, p);
      assert p in Without(stream, evicted) + [Reset(|offered|)] <==> p in Without(stream, evicted);
    }
  }

  lemma EvictAt(stream: seq<Event>, k: nat)
    requires k < |stream|
    ensures Without(stream, Some(k))[k..] == stream[k..][1..] && Without(stream, Some(k))[..k] == stream[..k]
  {
  }

  lemma AppendAt(stream: seq<Event>, k: nat, e: Event)
    requires k <= |stream|
    ensures (stream + [e])[k..] == stream[k..] + [e] && (stream + [e])[..k] == stream[..k]
  {
  }

  class Subscription {
    const namespace: string
    const kinds: set<string>
    const lower: string -> string
    var queue: seq<Event>
    var published: nat

    ghost var offered: seq<Option<Resource>>   // the matching publications
    ghost var stream: seq<Event>               // what the consumer received, then what is queued
    ghost var received: nat
    ghost var lost: map<nat, nat>
    ghost var lastLoss: int

    ghost predicate Queued()
      reads this
    {
      received <= |stream| && queue == stream[received..] && |queue| <= BUFFER
    }

    ghost predicate Valid()
      reads this
    {
      Queued() && published == |offered| && Accounts(offered, stream, lost, lastLoss)
    }

    constructor (inNamespace: string, ofKinds: set<string>, lowerCase: string -> string)
      ensures Valid() && queue == [] && offered == [] && stream == []
      ensures namespace == inNamespace && kinds == ofKinds && lower == lowerCase
    {
      namespace, kinds, lower := inNamespace, ofKinds, lowerCase;
      queue, published, offered, stream, received, lost, lastLoss := [], 0, [], [], 0, map[], -1;
    }

    // matches.
    method Matches(resource: Option<Resource>) returns (ok: bool)
      ensures ok <==> Concerns(resource)
    {
      if resource.None? { return true; }
      var r := resource.value;
      if namespace != "" && r.namespace != "" && r.namespace != namespace { return false; }
      if kinds == {} { return true; }
      return lower(r.kind) in kinds;
    }

    // An event without a resource concerns everybody; a resource concerns who asked for its namespace, or for
    // no namespace, or for any if it has none; and for its kind or no kind.
    predicate Concerns(resource: Option<Resource>) {
      resource.None? ||
      ((namespace == "" || resource.value.namespace in {"", namespace}) &&
       (kinds == {} || lower(resource.value.kind) in kinds))
    }

    // The consumer receives some of what is queued.
    method Consume()
      requires Queued()
      modifies this`queue, this`received
      ensures Queued() && received >= old(received)
    {
      var count: nat := *;
      while count > 0 && |queue| > 0
        invariant Queued() && received >= old(received)
      {
        queue := queue[1..];
        received := received + 1;
        count := count - 1;
      }
    }

    // Three non-blocking channel operations, with the consumer free to run between any two of them.
    method Publish(resource: Option<Resource>)
      requires Valid()
      modifies this
      ensures Valid() && received >= old(received) && stream[..old(received)] == old(stream[..received])
      // It is offered exactly if the subscription asked for it.
      ensures offered != old(offered) <==> (resource.Some? ==>
        (namespace == "" || resource.value.namespace == "" || resource.value.namespace == namespace)
        && (kinds == {} || lower(resource.value.kind) in kinds))
      ensures offered == old(offered) || offered == old(offered) + [resource]
      ensures offered == old(offered) ==> stream == old(stream) && lost == old(lost)
      ensures offered != old(offered) && |old(queue)| < BUFFER ==>
        stream == old(stream) + [Published(|old(offered)|, resource)] && lost == old(lost)
      // At capacity the event is lost, and at most the oldest that was still queued; a reset takes its place.
      ensures offered != old(offered) && |old(queue)| == BUFFER ==>
        lastLoss == |old(offered)| && lastLoss in lost
        && Overflowed(old(stream), stream, old(received), received, lastLoss)
    {
      var wanted := Matches(resource);
      if !wanted { return; }
      if |queue| < BUFFER {
        SendKeeps(offered, stream, lost, lastLoss, resource);
        AppendAt(stream, received, Published(published, resource));
        queue := queue + [Published(published, resource)];
        stream := stream + [Published(published, resource)];
      } else {
        Overflow(resource);
      }
      offered, published := offered + [resource], published + 1;
    }

    // Takes the oldest queued event, if the consumer has not emptied the queue meanwhile.
    method EvictOldest() returns (ghost evicted: Option<nat>)
      requires Queued()
      modifies this`queue, this`stream
      ensures Queued() && |queue| < BUFFER
      ensures evicted.Some? ==> evicted.value == received < |old(stream)|
      ensures evicted.None? ==> received == |old(stream)|
      ensures stream == Without(old(stream), evicted) && stream[..received] == old(stream[..received])
    {
      if |queue| == 0 { return None; }
      EvictAt(stream, received);
      queue := queue[1..];
      stream := Without(stream, Some(received));
      return Some(received);
    }

    // Never dropped in turn: only the consumer ran since the eviction.
    method RaiseReset()
      requires Queued() && |queue| < BUFFER
      modifies this`queue, this`stream
      ensures Queued() && stream == old(stream) + [Reset(published)] && stream[..received] == old(stream[..received])
    {
      if |queue| < BUFFER {
        AppendAt(stream, received, Reset(published));
        queue := queue + [Reset(published)];
        stream := stream + [Reset(published)];
      }
    }

    method Overflow(resource: Option<Resource>)
      requires Valid() && |queue| == BUFFER
      modifies this`queue, this`stream, this`received, this`lost, this`lastLoss
      ensures Queued() && received >= old(received) && stream[..old(received)] == old(stream[..received])
      ensures Accounts(offered + [resource], stream, lost, lastLoss)
      ensures lastLoss == |offered| && lastLoss in lost
      ensures Overflowed(old(stream), stream, old(received), received, lastLoss)
    {
      ghost var before := stream;
      Consume();
      ghost var evicted := EvictOldest();
      ghost var kept := stream;
      ghost var k := received;
      Consume();
      RaiseReset();
      PrefixKept(before, kept, stream, old(received), k);
      OverflowKeeps(offered, before, lost, lastLoss, resource, evicted, kept, stream);
      lost, lastLoss := LostBy(|offered|, before, lost, evicted), |offered|;
    }
  }

  lemma PrefixKept(before: seq<Event>, kept: seq<Event>, after: seq<Event>, i: nat, k: nat)
    requires i <= k <= |before| && k <= |kept| && kept[..k] == before[..k] && kept <= after
    ensures after[..i] == before[..i]
  {
    assert after[..i] == kept[..i] == kept[..k][..i] == before[..k][..i];
  }

  // A lost publication is followed, among what was received or is still queued, by a reset that was
  // raised no earlier than the loss, and that stands behind everything published up to it.
  lemma LossIsSignalled(offered: seq<Option<Resource>>, stream: seq<Event>, lost: map<nat, nat>, lastLoss: int, n: nat)
    returns (reset: nat)
    requires Accounts(offered, stream, lost, lastLoss)
    requires n < |offered| && Published(n, offered[n]) !in stream
    ensures n in lost && reset < |stream| && stream[reset].Reset? && stream[reset].at >= lost[n] >= n
    ensures forall i | 0 <= i < |stream| && stream[i].at <= n :: i <= reset
  {
    assert Settled(offered, lost, lastLoss, stream, n);
    reset :| reset < |stream| && stream[reset] == Reset(lastLoss);
  }

  // The number of the first publication after the reset just before position `from`.
  function Base(stream: seq<Event>, from: nat): nat
    requires from <= |stream|
  {
    if from == 0 then 0 else stream[from - 1].at + 1
  }

  // Position `from` opens the part of the stream after its last reset.
  ghost predicate LastStart(stream: seq<Event>, from: nat) {
    && from <= |stream| && (from > 0 ==> stream[from - 1].Reset?)
    && forall i | from <= i < |stream| :: stream[i].Published?
  }

  lemma PresentAfterReset(offered: seq<Option<Resource>>, stream: seq<Event>, lost: map<nat, nat>, lastLoss: int,
                          from: nat, n: nat) returns (i: nat)
    requires Accounts(offered, stream, lost, lastLoss) && LastStart(stream, from)
    requires Base(stream, from) <= n < |offered|
    ensures from <= i < |stream| && stream[i] == Published(n, offered[n])
  {
    if lastLoss >= 0 {
      var r :| 0 <= r < |stream| && stream[r] == Reset(lastLoss);
      assert r < from;
    }
    assert Settled(offered, lost, lastLoss, stream, n);
    i :| 0 <= i < |stream| && stream[i] == Published(n, offered[n]);
  }

  // A consumer that starts over at every reset misses nothing afterwards: from the last reset on, or from
  // the start when there is none, the stream is exactly what was published since, in order.
  lemma {:induction false} CompleteSinceReset(offered: seq<Option<Resource>>, stream: seq<Event>, lost: map<nat, nat>,
                                              lastLoss: int, from: nat, k: nat)
    requires Accounts(offered, stream, lost, lastLoss) && LastStart(stream, from)
    ensures from + k < |stream| <==> Base(stream, from) + k < |offered|
    ensures from + k < |stream| ==>
      stream[from + k] == Published(Base(stream, from) + k, offered[Base(stream, from) + k])
  {
    var base := Base(stream, from);
    if k == 0 {
    } else {
      CompleteSinceReset(offered, stream, lost, lastLoss, from, k - 1);
    }
    if from + k < |stream| {
      assert Genuine(offered, lost, stream, stream[from + k]);
    }
    if base + k < |offered| {
      var i := PresentAfterReset(offered, stream, lost, lastLoss, from, base + k);
    }
  }
}
