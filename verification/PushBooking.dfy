/**
 What the push service answered, and to which row and device each answer belongs
 (src/jobs/push-dispatch.job.ts:163-232). Messages are sent in chunks; the answers come back per chunk.
 */
module PushBooking {
  import opened Common
  import opened PushOutbox

  datatype Code = DeviceNotRegistered | MessageRateExceeded | OtherError(text: nat)
  datatype PushTicket = Accepted(id: nat) | Refused(code: Code)

  /** The answer for one chunk of `size` messages: tickets in order, or one error for all of it. */
  datatype Reply = Tickets(size: nat, tickets: seq<PushTicket>) | HttpError(size: nat, status: Option<nat>, text: nat)

  datatype Target = Target(row: RowId, device: nat)

  datatype Note = TicketError(code: Code) | ChunkError(text: nat)
  datatype Outcome = Outcome(tickets: seq<(nat, nat)>, errors: seq<Note>, retryable: bool)

  const NOTHING := Outcome([], [], false)

  /** What the service said about one message. */
  datatype Answer = Told(ticket: PushTicket) | ChunkFailed(status: Option<nat>, text: nat) | Silent

  /** Without a status the request never got an answer; 429 and 5xx pass. */
  predicate IsRetryable(status: Option<nat>) {
    status.None? || status.value == 429 || status.value >= 500
  }

  function AnswerAt(reply: Reply, i: nat): Answer {
    match reply
    case Tickets(_, tickets) => if i < |tickets| then Told(tickets[i]) else Silent
    case HttpError(_, status, text) => ChunkFailed(status, text)
  }

  function ChunkAnswers(reply: Reply): seq<Answer> {
    seq(reply.size, i requires 0 <= i < reply.size => AnswerAt(reply, i))
  }

  /** The chunks keep the order of the messages, so their answers in a row are the messages' answers. */
  function Answers(replies: seq<Reply>): seq<Answer> {
    if replies == [] then [] else Answers(replies[..|replies| - 1]) + ChunkAnswers(replies[|replies| - 1])
  }

  /** One message's answer, added to the outcome of the row it belongs to. */
  function BookOne(o: Outcome, device: nat, answer: Answer): Outcome {
    match answer
    case Told(Accepted(id)) => o.(tickets := o.tickets + [(id, device)])
    case Told(Refused(code)) => Outcome(o.tickets, o.errors + [TicketError(code)], o.retryable || code.MessageRateExceeded?)
    case ChunkFailed(status, text) => Outcome(o.tickets, o.errors + [ChunkError(text)], o.retryable || IsRetryable(status))
    case Silent => o
  }

  /** The messages of a chunk are answered by its reply, in order; a message beyond its tickets gets no answer. */
  lemma {:induction false} ChunksAnswerInOrder(before: seq<Reply>, reply: Reply, after: seq<Reply>, i: nat)
    requires i < reply.size
    ensures |Answers(before + [reply])| == |Answers(before)| + reply.size <= |Answers(before + [reply] + after)|
    ensures var answer := Answers(before + [reply] + after)[|Answers(before)| + i];
            match reply
            case Tickets(_, tickets) => answer == if i < |tickets| then Told(tickets[i]) else Silent
            case HttpError(_, status, text) => answer == ChunkFailed(status, text)
    decreases |after|
  {
    assert (before + [reply])[..|before|] == before;
    if after == [] {
      assert before + [reply] + after == before + [reply];
    } else {
      var n := |after| - 1;
      ChunksAnswerInOrder(before, reply, after[..n], i);
      assert (before + [reply] + after)[..|before| + 1 + n] == before + [reply] + after[..n];
    }
  }

  /** All that was said about the messages of one row, in order: the reference for the bookkeeping. */
  function Book(row: RowId, targets: seq<Target>, answers: seq<Answer>): Outcome
    requires |targets| == |answers|
  {
    if targets == [] then NOTHING
    else
      var n := |targets| - 1;
      var before := Book(row, targets[..n], answers[..n]);
      if targets[n].row == row then BookOne(before, targets[n].device, answers[n]) else before
  }

  lemma BookNext(row: RowId, targets: seq<Target>, answers: seq<Answer>, k: nat)
    requires k < |targets| && k < |answers|
    ensures Book(row, targets[..k + 1], answers[..k + 1]) ==
            if targets[k].row == row then BookOne(Book(row, targets[..k], answers[..k]), targets[k].device, answers[k])
            else Book(row, targets[..k], answers[..k])
  {
    assert targets[..k + 1][..k] == targets[..k] && answers[..k + 1][..k] == answers[..k];
  }

  /** The tickets of a row are those its own messages got, each with the device it was sent to. */
  lemma {:induction false} TicketsAreOwn(row: RowId, targets: seq<Target>, answers: seq<Answer>, id: nat, device: nat)
    requires |targets| == |answers|
    ensures (id, device) in Book(row, targets, answers).tickets <==>
            exists k :: 0 <= k < |targets| && targets[k] == Target(row, device) && answers[k] == Told(Accepted(id))
  {
    if targets != [] {
      var n := |targets| - 1;
      TicketsAreOwn(row, targets[..n], answers[..n], id, device);
      if k :| 0 <= k < |targets| && targets[k] == Target(row, device) && answers[k] == Told(Accepted(id)) {
        assert k == n || (targets[..n][k] == targets[k] && answers[..n][k] == answers[k]);
      }
    }
  }

  /** Some message of the row was accepted. */
  ghost predicate GotTicket(row: RowId, targets: seq<Target>, answers: seq<Answer>)
    requires |targets| == |answers|
  {
    exists k :: 0 <= k < |targets| && targets[k].row == row && answers[k].Told? && answers[k].ticket.Accepted?
  }

  /** Some message of the row was refused for the rate, or its chunk failed without a status, with 429 or with 5xx. */
  ghost predicate MayPassLater(row: RowId, targets: seq<Target>, answers: seq<Answer>)
    requires |targets| == |answers|
  {
    exists k :: 0 <= k < |targets| && targets[k].row == row &&
      (answers[k] == Told(Refused(MessageRateExceeded))
       || (answers[k].ChunkFailed? && (answers[k].status == None || answers[k].status == Some(429)))
       || (answers[k].ChunkFailed? && answers[k].status.Some? && 500 <= answers[k].status.value))
  }

  /** What the bookkeeping of a row says, in terms of the answers to its own messages. */
  lemma {:induction false} BookSays(row: RowId, targets: seq<Target>, answers: seq<Answer>)
    requires |targets| == |answers|
    ensures Book(row, targets, answers).tickets != [] <==> GotTicket(row, targets, answers)
    ensures Book(row, targets, answers).retryable <==> MayPassLater(row, targets, answers)
  {
    if targets != [] {
      var n := |targets| - 1;
      BookSays(row, targets[..n], answers[..n]);
      assert forall k :: 0 <= k < n ==> targets[..n][k] == targets[k] && answers[..n][k] == answers[k];
    }
  }

  ghost predicate Booked(outcomes: map<RowId, Outcome>, rows: set<RowId>, targets: seq<Target>, answers: seq<Answer>, k: nat)
    requires k <= |targets| && k <= |answers|
  {
    outcomes.Keys == rows && forall r :: r in rows ==> outcomes[r] == Book(r, targets[..k], answers[..k])
  }

  /** The devices the service no longer knows, among those that were written to. */
  ghost predicate Unregistered(devices: set<nat>, targets: seq<Target>, answers: seq<Answer>, k: nat)
    requires k <= |targets| && k <= |answers|
  {
    forall d :: d in devices <==>
      exists i :: 0 <= i < k && targets[i].device == d && answers[i] == Told(Refused(DeviceNotRegistered))
  }

  lemma BookedKept(outcomes: map<RowId, Outcome>, rows: set<RowId>, unknown: set<nat>, targets: seq<Target>,
                   answers: seq<Answer>, more: seq<Answer>, k: nat)
    requires k <= |targets| && k <= |answers| && answers <= more
    requires Booked(outcomes, rows, targets, answers, k) && Unregistered(unknown, targets, answers, k)
    ensures Booked(outcomes, rows, targets, more, k) && Unregistered(unknown, targets, more, k)
  {
    assert answers[..k] == more[..k];
  }

  /** One answer booked: to its own row and device, and no other outcome changes. */
  method BookMessage(ghost rows: set<RowId>, before: map<RowId, Outcome>, unknown: set<nat>, targets: seq<Target>,
                     ghost answers: seq<Answer>, k: nat, answer: Answer)
    returns (outcomes: map<RowId, Outcome>, notRegistered: set<nat>)
    requires k < |targets| && k < |answers| && answers[k] == answer && targets[k].row in rows
    requires Booked(before, rows, targets, answers, k) && Unregistered(unknown, targets, answers, k)
    ensures outcomes == before[targets[k].row := BookOne(before[targets[k].row], targets[k].device, answer)]
    ensures Booked(outcomes, rows, targets, answers, k + 1) && Unregistered(notRegistered, targets, answers, k + 1)
  {
    var target := targets[k];
    var o := before[target.row];
    outcomes := before[target.row := BookOne(o, target.device, answer)];
    notRegistered := if answer == Told(Refused(DeviceNotRegistered)) then unknown + {target.device} else unknown;
    forall r | r in rows ensures outcomes[r] == Book(r, targets[..k + 1], answers[..k + 1]) {
      BookNext(r, targets, answers, k);
    }
  }
}
