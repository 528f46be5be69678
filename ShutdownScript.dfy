/** The shutdown conversation: ask for confirmation; a yes says goodbye
    and schedules the process exit, anything else (the `no` / default entry)
    says "*Phew!*". Both complete the conversation. The timer and the exit
    itself are recorded only as a flag. */
module ShutdownScript {
  import opened Conversation

  const SureQuestion: string := "Are you sure you want me to shutdown?"
  const ByeText: string := "Bye!"
  const PhewText: string := "*Phew!*"

  datatype ShutdownState = ShutdownState(status: Status, exitScheduled: bool, out: seq<Effect>)

  const Start: ShutdownState := ShutdownState(Active, false, [Say(SureQuestion)])

  /** One reply delivered to the conversation. */
  function Hear(s: ShutdownState, a: Answer): (r: ShutdownState)
    ensures s.status != Active ==> r == s
    ensures s.status == Active ==> r.status == Completed
    ensures s.status == Active ==> (r.exitScheduled <==> s.exitScheduled || a.saysYes)
  {
    if s.status != Active then s
    else match BranchOf(a)
      case YesBranch =>
        s.(status := Completed, exitScheduled := true, out := s.out + [Say(ByeText)])
      case _ =>
        // the `no` pattern and the default share one callback
        s.(status := Completed, out := s.out + [Say(PhewText)])
  }

  function Run(s: ShutdownState, answers: seq<Answer>): ShutdownState
    decreases |answers|
  {
    if answers == [] then s else Run(Hear(s, answers[0]), answers[1..])
  }

  lemma {:induction false} RunAfterEnd(s: ShutdownState, answers: seq<Answer>)
    requires s.status != Active
    ensures Run(s, answers) == s
    decreases |answers|
  {
    if answers != [] {
      RunAfterEnd(Hear(s, answers[0]), answers[1..]);
    }
  }

  /** For every sequence of replies: the first reply completes the
      conversation; the exit is scheduled exactly when that reply is a yes,
      and the bot's last words are "Bye!" or "*Phew!*" accordingly. */
  lemma ShutdownOutcome(answers: seq<Answer>)
    requires answers != []
    ensures var f := Run(Start, answers);
      f.status == Completed &&
      (f.exitScheduled <==> answers[0].saysYes) &&
      f.out == [Say(SureQuestion), Say(if answers[0].saysYes then ByeText else PhewText)]
  {
    RunAfterEnd(Hear(Start, answers[0]), answers[1..]);
  }

  /** The shutdown conversation, updated in place as the reply arrives. */
  class ShutdownSession {
    var status: Status
    var exitScheduled: bool
    var out: seq<Effect>

    function State(): ShutdownState
      reads this
    {
      ShutdownState(status, exitScheduled, out)
    }

    constructor ()
      ensures State() == Start
    {
      status := Active;
      exitScheduled := false;
      out := [Say(SureQuestion)];
    }

    method HearAnswer(a: Answer)
      modifies this
      ensures State() == Hear(old(State()), a)
    {
      if status == Active {
        if a.saysYes {
          out := out + [Say(ByeText)];
          status := Completed;
          exitScheduled := true;
        } else {
          out := out + [Say(PhewText)];
          status := Completed;
        }
      }
    }
  }
}
