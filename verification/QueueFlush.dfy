/** Delivering queue-status reports (agent.py): in order, keeping what must be retried, dropping
    only what the cloud deterministically refuses. */
module QueueFlush {
  import opened Prelude

  /** The reporter's verdict on one POST: 2xx, 4xx, or anything else. */
  datatype Answer = Sent | Dropped | RetryLater

  function AnswerOf(status: Option<int>): Answer {
    match status
    case None => RetryLater
    case Some(code) => if 200 <= code < 300 then Sent else if 400 <= code < 500 then Dropped else RetryLater
  }

  /** How many reports are settled before the first that must be retried. */
  function Settled(statuses: seq<Option<int>>): nat {
    if statuses == [] || AnswerOf(statuses[0]) == RetryLater then 0 else 1 + Settled(statuses[1..])
  }

  lemma {:induction false} SettledBound(statuses: seq<Option<int>>)
    ensures Settled(statuses) <= |statuses|
    ensures forall i :: 0 <= i < Settled(statuses) ==> AnswerOf(statuses[i]) != RetryLater
    ensures Settled(statuses) < |statuses| ==> AnswerOf(statuses[Settled(statuses)]) == RetryLater
  {
    if statuses != [] {
      SettledBound(statuses[1..]);
    }
  }

  // ----- one flush, told in status codes ----------------------------------------------------------

  predicate Took(status: Option<int>) {
    status.Some? && 200 <= status.value <= 299
  }

  predicate Refused(status: Option<int>) {
    status.Some? && 400 <= status.value <= 499
  }

  /** The reports answered with a code from 200 to 299, in order. */
  function Accepted<R>(reports: seq<R>, statuses: seq<Option<int>>): seq<R>
    requires |statuses| == |reports|
  {
    if reports == [] then []
    else
      var n := |reports| - 1;
      Accepted(reports[..n], statuses[..n]) + if Took(statuses[n]) then [reports[n]] else []
  }

  /** The first `n` reports were taken or refused for good, the next one was neither, and it and all behind it stay. */
  ghost predicate FlushedTo<R>(reports: seq<R>, statuses: seq<Option<int>>, remaining: seq<R>, received: seq<R>, n: nat)
    requires |statuses| == |reports|
  {
    && n <= |reports| && remaining == reports[n..] && received == Accepted(reports[..n], statuses[..n])
    && (forall i :: 0 <= i < n ==> Took(statuses[i]) || Refused(statuses[i]))
    && (n < |reports| ==> !Took(statuses[n]) && !Refused(statuses[n]))
  }

  lemma {:induction false} TakenAreAccepted<R>(reports: seq<R>, statuses: seq<Option<int>>)
    requires |statuses| == |reports|
    ensures Taken(Zip(reports, statuses)) == Accepted(reports, statuses)
  {
    if reports != [] {
      var n := |reports| - 1;
      TakenAreAccepted(reports[..n], statuses[..n]);
      assert Zip(reports, statuses)[..n] == Zip(reports[..n], statuses[..n]);
    }
  }

  lemma {:induction false} SettledIsFlushed<R>(reports: seq<R>, statuses: seq<Option<int>>)
    requires |statuses| == |reports|
    ensures var n := Settled(statuses);
            n <= |reports| && FlushedTo(reports, statuses, reports[n..], Taken(Zip(reports[..n], statuses[..n])), n)
  {
    hide Settled, Zip, Taken, Accepted;
    SettledBound(statuses);
    TakenAreAccepted(reports[..Settled(statuses)], statuses[..Settled(statuses)]);
  }

  /** POST report after report; `statuses` are the answers, None for a transport failure. */
  method Flush<R>(reports: seq<R>, statuses: seq<Option<int>>) returns (remaining: seq<R>, received: seq<R>)
    requires |statuses| == |reports|
    ensures Settled(statuses) <= |reports|
    ensures FlushedTo(reports, statuses, remaining, received, Settled(statuses))
    ensures received == Taken(Zip(reports[..Settled(statuses)], statuses[..Settled(statuses)]))
  {
    hide FlushedTo;
    SettledIsFlushed(reports, statuses);
    received := [];
    for idx := 0 to |reports|
      invariant Settled(statuses) == idx + Settled(statuses[idx..])
      invariant received == Taken(Zip(reports[..idx], statuses[..idx]))
    {
      assert statuses[idx..][0] == statuses[idx] && statuses[idx..][1..] == statuses[idx + 1..];
      ghost var answered := Zip(reports[..idx + 1], statuses[..idx + 1]);
      assert answered[..idx] == Zip(reports[..idx], statuses[..idx]);
      match AnswerOf(statuses[idx]) {
        case Sent =>
          received := received + [reports[idx]];
        case Dropped =>
        case RetryLater =>
          return reports[idx..], received;
      }
    }
    assert Settled(statuses) == |reports| && reports[|reports|..] == [];
    remaining := [];
  }

  function Zip<R>(reports: seq<R>, statuses: seq<Option<int>>): seq<(R, Answer)>
    requires |statuses| == |reports|
  {
    seq(|reports|, i requires 0 <= i < |reports| => (reports[i], AnswerOf(statuses[i])))
  }

  /** The reports the cloud took, in order: a dropped report never reaches its transition map. */
  function Taken<R>(settled: seq<(R, Answer)>): seq<R> {
    if settled == [] then []
    else
      var n := |settled| - 1;
      Taken(settled[..n]) + if settled[n].1 == Sent then [settled[n].0] else []
  }

  // ----- the local outbox over many heartbeats ------------------------------------------------------

  /** The reports waiting to be sent and the history of settled POSTs. */
  datatype Outbox<R> = Outbox(waiting: seq<R>, settled: seq<(R, Answer)>)

  datatype Beat<R> = Beat(produced: seq<R>, statuses: seq<Option<int>>)

  /** One heartbeat: new reports join the queue and the whole queue is flushed. */
  function AfterBeat<R>(o: Outbox<R>, b: Beat<R>): Outbox<R>
    requires |b.statuses| == |o.waiting + b.produced|
  {
    var all := o.waiting + b.produced;
    SettledBound(b.statuses);
    var n := Settled(b.statuses);
    Outbox(all[n..], o.settled + Zip(all[..n], b.statuses[..n]))
  }

  ghost predicate Answered<R>(o: Outbox<R>, beats: seq<Beat<R>>)
    decreases |beats|
  {
    beats == []
    || (|beats[0].statuses| == |o.waiting + beats[0].produced| && Answered(AfterBeat(o, beats[0]), beats[1..]))
  }

  ghost function AfterBeats<R>(o: Outbox<R>, beats: seq<Beat<R>>): Outbox<R>
    requires Answered(o, beats)
    decreases |beats|
  {
    if beats == [] then o else AfterBeats(AfterBeat(o, beats[0]), beats[1..])
  }

  function Firsts<R>(s: seq<(R, Answer)>): seq<R> {
    seq(|s|, i requires 0 <= i < |s| => s[i].0)
  }

  function Produced<R>(beats: seq<Beat<R>>): seq<R> {
    if beats == [] then [] else beats[0].produced + Produced(beats[1..])
  }

  lemma {:induction false} FirstsZip<R>(settled: seq<(R, Answer)>, reports: seq<R>, statuses: seq<Option<int>>)
    requires |statuses| == |reports|
    ensures Firsts(settled + Zip(reports, statuses)) == Firsts(settled) + reports
  {
  }

  ghost predicate AllFinal<R>(settled: seq<(R, Answer)>) {
    forall i :: 0 <= i < |settled| ==> settled[i].1 != RetryLater
  }

  lemma {:induction false} BeatSettles<R>(o: Outbox<R>, b: Beat<R>)
    requires |b.statuses| == |o.waiting + b.produced| && AllFinal(o.settled)
    ensures AllFinal(AfterBeat(o, b).settled)
  {
    SettledBound(b.statuses);
  }

  lemma {:induction false} BeatKeepsOrder<R>(o: Outbox<R>, b: Beat<R>)
    requires |b.statuses| == |o.waiting + b.produced|
    ensures var o' := AfterBeat(o, b);
            Firsts(o'.settled) + o'.waiting == Firsts(o.settled) + o.waiting + b.produced
  {
    hide Firsts, Zip, Settled;
    SettledBound(b.statuses);
    var all := o.waiting + b.produced;
    var n := Settled(b.statuses);
    FirstsZip(o.settled, all[..n], b.statuses[..n]);
    assert all[..n] + all[n..] == all;
    assert Firsts(o.settled) + all[..n] + all[n..] == Firsts(o.settled) + (all[..n] + all[n..]);
    assert Firsts(o.settled) + all == Firsts(o.settled) + o.waiting + b.produced;
  }

  /** Over any run of heartbeats the settled reports followed by the waiting ones are exactly the
      reports produced, in order: nothing is skipped, repeated or reordered, and each settled
      report was either taken by the cloud or refused for good. */
  lemma {:induction false} DeliveredInOrder<R>(o: Outbox<R>, beats: seq<Beat<R>>)
    requires Answered(o, beats) && AllFinal(o.settled)
    ensures var o' := AfterBeats(o, beats);
            && Firsts(o'.settled) + o'.waiting == Firsts(o.settled) + o.waiting + Produced(beats)
            && AllFinal(o'.settled)
    decreases |beats|
  {
    hide AfterBeat, AllFinal, Firsts;
    if beats == [] {
      assert Firsts(o.settled) + o.waiting + [] == Firsts(o.settled) + o.waiting;
    } else {
      var o1 := AfterBeat(o, beats[0]);
      BeatKeepsOrder(o, beats[0]);
      BeatSettles(o, beats[0]);
      DeliveredInOrder(o1, beats[1..]);
      assert Firsts(o.settled) + o.waiting + beats[0].produced + Produced(beats[1..])
          == Firsts(o.settled) + o.waiting + Produced(beats);
    }
  }
}
