/** Writing one bulk record, header then payload, through a descriptor that takes what it likes. */
module RecordWrite {
  import opened Prelude

  /** The answer to one attempt: bytes taken, a reason to try again, or a failure. */
  datatype Answer = Took(count: nat) | Again | Refused

  datatype Outcome = Complete | WriteZero | Failed | Unfinished

  /** What the descriptor takes of the two slices offered. */
  function Taken(header: seq<byte>, payload: seq<byte>, count: nat): seq<byte>
  {
    var offered := header + payload;
    if count < |offered| then offered[..count] else offered
  }

  /** The cursors after `written` more bytes: the header is used up first. */
  function HeaderAfter(header: seq<byte>, at: nat, written: nat): nat
    requires at <= |header|
  {
    if written < |header| - at then at + written else |header|
  }

  function PayloadAfter(header: seq<byte>, at: nat, payloadAt: nat, written: nat): nat
    requires at <= |header|
  {
    if written < |header| - at then payloadAt else payloadAt + (written - (|header| - at))
  }

  /** What is taken are the bytes of header ++ payload at the cursors' sum, which moves by as many. */
  lemma CursorsFollow(header: seq<byte>, payload: seq<byte>, h: nat, p: nat, count: nat)
    requires h <= |header| && p <= |payload| && (h < |header| ==> p == 0)
    ensures var taken := Taken(header[h..], payload[p..], count);
            var h', p' := HeaderAfter(header, h, |taken|), PayloadAfter(header, h, p, |taken|);
            && h' <= |header| && p' <= |payload| && (h' < |header| ==> p' == 0) && h' + p' == h + p + |taken|
            && |taken| == (if count < |header| + |payload| - h - p then count else |header| + |payload| - h - p)
            && (header + payload)[..h + p] + taken == (header + payload)[..h' + p']
  {
    assert header[h..] + payload[p..] == (header + payload)[h + p..];
  }

  // ---- one stream ----

  /** How a write ended and how many bytes the descriptor took. */
  datatype Served = Served(outcome: Outcome, count: nat)

  /**
   The reference: a single stream with `left` bytes to go, answered from attempt `i` on. The
   first refusal or zero ends it, a retry costs an answer, and running out of answers leaves it.
   */
  function Serve(left: nat, answers: seq<Answer>, i: nat): (r: Served)
    requires i <= |answers|
    ensures r.count <= left && (r.outcome == Complete <==> r.count == left)
    decreases |answers| - i
  {
    if left == 0 then Served(Complete, 0)
    else if i == |answers| then Served(Unfinished, 0)
    else match answers[i]
      case Refused => Served(Failed, 0)
      case Again => Serve(left, answers, i + 1)
      case Took(count) =>
        if count == 0 then Served(WriteZero, 0)
        else
          var n := if count < left then count else left;
          var rest := Serve(left - n, answers, i + 1);
          Served(rest.outcome, n + rest.count)
  }

  /** The bytes offered to be taken by the first `n` answers. */
  function Offered(answers: seq<Answer>, n: nat): nat
    requires n <= |answers|
  {
    if n == 0 then 0 else Offered(answers, n - 1) + if answers[n - 1].Took? then answers[n - 1].count else 0
  }

  predicate Ends(a: Answer)
  {
    a.Refused? || (a.Took? && a.count == 0)
  }

  /** No answer before `n` ended the write, and those before the last of them did not complete it. */
  predicate StillGoing(left: nat, answers: seq<Answer>, n: nat)
    requires n <= |answers|
  {
    (forall k :: 0 <= k < n ==> !Ends(answers[k])) && (n > 0 ==> Offered(answers, n - 1) < left)
  }

  lemma {:induction false} ServeSkips(left: nat, answers: seq<Answer>, n: nat)
    requires n <= |answers| && StillGoing(left, answers, n)
    ensures var done := if Offered(answers, n) < left then Offered(answers, n) else left;
            var rest := Serve(left - done, answers, n);
            Serve(left, answers, 0) == Served(rest.outcome, done + rest.count)
  {
    if n > 0 {
      ServeSkips(left, answers, n - 1);
    }
  }

  /** In closed form: the write completes once the answers add up to it, and otherwise ends with what they took. */
  lemma ServeIsExact(left: nat, answers: seq<Answer>, n: nat)
    requires n <= |answers| && StillGoing(left, answers, n)
    ensures Offered(answers, n) >= left ==> Serve(left, answers, 0) == Served(Complete, left)
    ensures Offered(answers, n) < left && n == |answers| ==>
            Serve(left, answers, 0) == Served(Unfinished, Offered(answers, n))
    ensures Offered(answers, n) < left && n < |answers| && Ends(answers[n]) ==>
            Serve(left, answers, 0) ==
            Served(if answers[n].Refused? then Failed else WriteZero, Offered(answers, n))
  {
    ServeSkips(left, answers, n);
  }

  /** Enough positive answers always complete the write. */
  lemma {:induction false} PositiveAnswersComplete(left: nat, answers: seq<Answer>, i: nat)
    requires i <= |answers| && |answers| - i >= left
    requires forall k :: i <= k < |answers| ==> answers[k].Took? && answers[k].count > 0
    ensures Serve(left, answers, i) == Served(Complete, left)
    decreases |answers| - i
  {
    if left > 0 {
      var count := answers[i].count;
      PositiveAnswersComplete(left - if count < left then count else left, answers, i + 1);
    }
  }

  /** The first `i` answers served `done` of `total` bytes, and the rest decides. */
  predicate Upto(total: nat, answers: seq<Answer>, i: nat, done: nat)
    requires i <= |answers|
  {
    done <= total &&
    var rest := Serve(total - done, answers, i);
    Serve(total, answers, 0) == Served(rest.outcome, done + rest.count)
  }

  lemma UptoNext(total: nat, answers: seq<Answer>, i: nat, done: nat, n: nat)
    requires i < |answers| && Upto(total, answers, i, done) && done < total
    requires answers[i].Took? && answers[i].count > 0
    requires n == if answers[i].count < total - done then answers[i].count else total - done
    ensures Upto(total, answers, i + 1, done + n)
  {
  }

  /**
   Header and payload with their two cursors behave like one stream: the descriptor receives
   exactly the bytes the reference serves, and the write ends as its answers dictate.
   */
  method WriteParts(header: seq<byte>, payload: seq<byte>, answers: seq<Answer>)
      returns (outcome: Outcome, received: seq<byte>)
    ensures outcome == Serve(|header| + |payload|, answers, 0).outcome
    ensures received == (header + payload)[..Serve(|header| + |payload|, answers, 0).count]
  {
    var headerOffset: nat, payloadOffset: nat, calls: nat := 0, 0, 0;
    received := [];
    ghost var total := |header| + |payload|;
    while headerOffset < |header| || payloadOffset < |payload|
      invariant headerOffset <= |header| && payloadOffset <= |payload| && calls <= |answers|
      invariant headerOffset < |header| ==> payloadOffset == 0
      invariant received == (header + payload)[..headerOffset + payloadOffset]
      invariant Upto(total, answers, calls, |received|)
      decreases |answers| - calls
    {
      if calls == |answers| {
        return Unfinished, received;
      }
      var answer := answers[calls];
      calls := calls + 1;
      if answer.Refused? {
        return Failed, received;
      }
      if answer.Again? {
        continue;
      }
      if answer.count == 0 {
        return WriteZero, received;
      }
      CursorsFollow(header, payload, headerOffset, payloadOffset, answer.count);
      UptoNext(total, answers, calls - 1, |received|,
               |Taken(header[headerOffset..], payload[payloadOffset..], answer.count)|);
      var taken := Taken(header[headerOffset..], payload[payloadOffset..], answer.count);
      received := received + taken;
      var written := |taken|;
      var headerRemaining := |header| - headerOffset;
      if written < headerRemaining {
        headerOffset := headerOffset + written;
      } else {
        headerOffset := |header|;
        payloadOffset := payloadOffset + (written - headerRemaining);
      }
    }
    return Complete, received;
  }
}
