/** The nickname conversation that the who-am-i handler opens when no name
    is stored: ask for a name (captured under the key `nickname`), ask to
    confirm it with a yes / no / default branch set, and on completion save
    the captured name in the user store. */
module NicknameScript {
  import opened Options
  import opened Conversation
  import opened Users

  const NoNameYetText: string := "I do not know your name yet!"
  const NameQuestion: string := "What should I call you?"
  const DossierText: string := "OK! I will update my dossier..."
  const NevermindText: string := "OK, nevermind!"

  function ConfirmQuestion(name: string): string {
    "You want me to call you `" + name + "`?"
  }

  /** The conversation's status, its `nickname` slot (empty while the name
      question is pending, filled while the confirmation is pending) and
      what the bot has done. */
  datatype NickState = NickState(status: Status, nickname: Option<string>, out: seq<Effect>)

  /** The conversation as opened: a message and the name question. */
  const Start: NickState := NickState(Active, None, [Say(NoNameYetText), Say(NameQuestion)])

  /** What the `end` handler does for a final status: on completion it
      announces the update, saves the captured name and confirms it; on any
      other ending it gives up. */
  function EndEffects(status: Status, name: string): seq<Effect> {
    if status == Completed then [Say(DossierText), SaveName(name), Say(SavedText(name))]
    else [Say(NevermindText)]
  }

  /** One reply delivered to the conversation. */
  function Hear(s: NickState, a: Answer): (r: NickState)
    ensures s.status != Active ==> r == s
    ensures s.status == Active && s.nickname.None? ==>
      r == NickState(Active, Some(a.text), s.out + [Say(ConfirmQuestion(a.text))])
    ensures s.status == Active && s.nickname.Some? ==>
      r.nickname == s.nickname &&
      (r.status == Completed <==> a.saysYes) &&
      (r.status == Stopped <==> !a.saysYes && a.saysNo) &&
      (r.status == Active <==> !a.saysYes && !a.saysNo)
    ensures s.status == Active && s.nickname.Some? && r.status == Active ==>
      r.out == s.out + [Say(ConfirmQuestion(s.nickname.value))]
  {
    if s.status != Active then s
    else match s.nickname
      case None =>
        // the reply to the name question is stored under `nickname`,
        // and the confirmation question is queued
        s.(nickname := Some(a.text), out := s.out + [Say(ConfirmQuestion(a.text))])
      case Some(n) =>
        match BranchOf(a)
        case YesBranch =>
          // `next()` with nothing queued: the conversation completes
          s.(status := Completed, out := s.out + EndEffects(Completed, n))
        case NoBranch =>
          s.(status := Stopped, out := s.out + EndEffects(Stopped, n))
        case DefaultBranch =>
          // `repeat()` then `next()`: the confirmation is asked again
          s.(out := s.out + [Say(ConfirmQuestion(n))])
  }

  function Run(s: NickState, answers: seq<Answer>): NickState
    decreases |answers|
  {
    if answers == [] then s else Run(Hear(s, answers[0]), answers[1..])
  }

  /** The branch of the first confirmation reply that is not handled by the
      default entry, if any. */
  function FirstDecision(answers: seq<Answer>): (d: Option<Branch>)
    ensures d != Some(DefaultBranch)
    decreases |answers|
  {
    if answers == [] then None
    else if BranchOf(answers[0]) != DefaultBranch then Some(BranchOf(answers[0]))
    else FirstDecision(answers[1..])
  }

  /** A conversation that has ended ignores further replies. */
  lemma {:induction false} RunAfterEnd(s: NickState, answers: seq<Answer>)
    requires s.status != Active
    ensures Run(s, answers) == s
    decreases |answers|
  {
    if answers != [] {
      RunAfterEnd(Hear(s, answers[0]), answers[1..]);
    }
  }

  /** While the confirmation is pending, the slot keeps its value; the first
      reply that is not a default decides the ending, and the `end` handler's
      effects close the transcript. */
  lemma {:induction false} ConfirmRun(s: NickState, answers: seq<Answer>)
    requires s.status == Active && s.nickname.Some?
    ensures var f := Run(s, answers);
      f.nickname == s.nickname &&
      (f.status == Completed <==> FirstDecision(answers) == Some(YesBranch)) &&
      (f.status == Stopped <==> FirstDecision(answers) == Some(NoBranch)) &&
      (f.status == Active <==> FirstDecision(answers) == None) &&
      (f.status != Active ==>
        exists k :: 0 <= k <= |f.out| && f.out[k..] == EndEffects(f.status, s.nickname.value))
    decreases |answers|
  {
    if answers != [] {
      var h := Hear(s, answers[0]);
      if h.status == Active {
        ConfirmRun(h, answers[1..]);
      } else {
        RunAfterEnd(h, answers[1..]);
        var e := EndEffects(h.status, s.nickname.value);
        assert h.out == s.out + e;
        assert h.out[|s.out|..] == e;
      }
    }
  }

  /** The conversation from its opening, for every sequence of replies: the
      first reply is the captured nickname; the conversation completes on
      the first yes, stops on the first no, and stays open while every
      confirmation reply falls to the default entry. */
  lemma NicknameOutcome(answers: seq<Answer>)
    requires answers != []
    ensures var f := Run(Start, answers);
      f.nickname == Some(answers[0].text) &&
      (f.status == Completed <==> FirstDecision(answers[1..]) == Some(YesBranch)) &&
      (f.status == Stopped <==> FirstDecision(answers[1..]) == Some(NoBranch)) &&
      (f.status == Active <==> FirstDecision(answers[1..]) == None)
  {
    ConfirmRun(Hear(Start, answers[0]), answers[1..]);
  }

  /** On completion the name saved is the captured `nickname`; on a stop
      the last thing the bot says is "OK, nevermind!". */
  lemma SavedNameIsNickname(answers: seq<Answer>)
    requires answers != []
    ensures var f := Run(Start, answers);
      (f.status == Completed ==>
        exists k :: 0 <= k <= |f.out| &&
          f.out[k..] == [Say(DossierText), SaveName(answers[0].text), Say(SavedText(answers[0].text))]) &&
      (f.status == Stopped ==> |f.out| > 0 && f.out[|f.out| - 1] == Say(NevermindText))
  {
    var h := Hear(Start, answers[0]);
    ConfirmRun(h, answers[1..]);
    var f := Run(Start, answers);
    if f.status == Stopped {
      var k :| 0 <= k <= |f.out| && f.out[k..] == EndEffects(Stopped, answers[0].text);
      assert f.out[|f.out| - 1] == f.out[k..][0];
    }
  }

  /** A name, then "yes": the conversation completes and saves that name. */
  lemma NameThenYes(name: string, yes: Answer)
    requires yes.saysYes
    ensures var f := Run(Start, [Answer(name, false, false), yes]);
      f.status == Completed && f.nickname == Some(name) &&
      f.out == Start.out + [Say(ConfirmQuestion(name)), Say(DossierText), SaveName(name), Say(SavedText(name))]
  {
    var s1 := Hear(Start, Answer(name, false, false));
    var s2 := Hear(s1, yes);
    assert [Answer(name, false, false), yes][1..] == [yes];
    assert Run(s1, [yes]) == Run(s2, []);
  }

  /** The nickname conversation with its slot, updated in place as replies
      arrive; on completion it writes the name into the user store. */
  class NicknameSession {
    const uid: string
    const store: UserStore
    var status: Status
    var nickname: Option<string>
    var out: seq<Effect>

    function State(): NickState
      reads this
    {
      NickState(status, nickname, out)
    }

    /** The conversation opened for user `uid`. */
    constructor (uid: string, store: UserStore)
      ensures this.uid == uid && this.store == store
      ensures State() == Start
    {
      this.uid := uid;
      this.store := store;
      status := Active;
      nickname := None;
      out := [Say(NoNameYetText), Say(NameQuestion)];
    }

    /** One reply: the callback of the pending question, and on an ending
        the `end` handler, which saves the name on completion. */
    method HearAnswer(a: Answer)
      requires store.Valid()
      modifies this, store
      ensures store.Valid()
      ensures State() == Hear(old(State()), a)
      ensures store.users ==
        if old(status) == Active && old(nickname).Some? && a.saysYes
        then StoreName(old(store.users), uid, old(nickname).value)
        else old(store.users)
    {
      if status != Active {
        return;
      }
      if nickname.None? {
        nickname := Some(a.text);
        out := out + [Say(ConfirmQuestion(a.text))];
        return;
      }
      var n := nickname.value;
      if a.saysYes {
        status := Completed;
      } else if a.saysNo {
        status := Stopped;
      } else {
        out := out + [Say(ConfirmQuestion(n))];
        return;
      }
      if status == Completed {
        out := out + [Say(DossierText), SaveName(n)];
        var confirm := store.CallMe(uid, n);
        out := out + [Say(confirm)];
      } else {
        out := out + [Say(NevermindText)];
      }
    }
  }
}
