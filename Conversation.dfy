/** What the three conversation scripts share: the status a conversation
    ends in, the reply to a question that has a branch set, and what the
    bot does in response. The conversation engine itself is not modelled;
    each script is a state machine over these. */
module Conversation {

  /** `convo.status`: a conversation is active until `next()` runs out of
      queued questions (completed) or `stop()` is called (stopped). */
  datatype Status = Active | Completed | Stopped

  /** A reply to a question with a branch set. `text` is what the user
      wrote; `saysYes` and `saysNo` are the results of the engine's tests of
      that text against the `yes` and the `no` patterns of the branch set. */
  datatype Answer = Answer(text: string, saysYes: bool, saysNo: bool)

  /** The entries of a branch set of the form yes / no / default. */
  datatype Branch = YesBranch | NoBranch | DefaultBranch

  /** The entry that handles an answer: the first in declared order whose
      pattern matches; the default entry only when no pattern does. */
  function BranchOf(a: Answer): (b: Branch)
    ensures b == YesBranch <==> a.saysYes
    ensures b == NoBranch <==> !a.saysYes && a.saysNo
    ensures b == DefaultBranch <==> !a.saysYes && !a.saysNo
  {
    if a.saysYes then YesBranch
    else if a.saysNo then NoBranch
    else DefaultBranch
  }

  /** Something the bot does: send a message, look up a forecast, or save
      a name in the user store. */
  datatype Effect =
    | Say(text: string)
    | Lookup(day: nat, cityId: int)
    | SaveName(name: string)
}
