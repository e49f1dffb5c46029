/** The stop guard of the Pi extension (the template in internal/setup/pi.go):
    one automatic correction per prompt, also across restarts. */
module PiGuard {
  import opened Model

  /** Prompt IDs are random UUIDs; here, numbers that never repeat. */
  datatype StopState = StopState(promptId: nat, used: bool)

  /** An entry of the session: a saved stop state, or anything else. */
  datatype Entry = Saved(state: StopState) | Foreign

  datatype Source = Interactive | Rpc | Extension

  /** What the gate, or a failure to ask it, comes down to. */
  datatype Gate = Allowed | Blocked

  /** Appending an entry may throw, before or after it was written. */
  datatype Write = Written | WrittenThenThrew | NotWritten

  /** A session is a tree of entries, and `nodes` are its branches; `branch` is
      the current one. `sent` are the prompts whose corrective message went out. */
  datatype State = State(
    stopState: StopState, ownCorrectionPending: bool, nextId: nat,
    branch: seq<Entry>, nodes: set<seq<Entry>>, sent: seq<nat>)

  datatype Action =
    | Restarts
    | Starts
    | Inputs(source: Source, write: Write)
    | Settles(gate: Gate, write: Write, sends: bool, rewrite: Write)
    | OtherEntry
    | MovesTo(branch: seq<Entry>)  // the user continues from another place of the session

  // ---------- Single steps ----------

  /** The last saved state of a branch. */
  function LastSaved(branch: seq<Entry>): Option<StopState> {
    if branch == [] then None
    else if branch[|branch| - 1].Saved? then Some(branch[|branch| - 1].state)
    else LastSaved(branch[..|branch| - 1])
  }

  function Append(s: State, entry: Entry): State {
    s.(branch := s.branch + [entry], nodes := s.nodes + {s.branch + [entry]})
  }

  function Persist(s: State, write: Write): State {
    if write.NotWritten? then s else Append(s, Saved(s.stopState))
  }

  function Renew(s: State): State {
    s.(stopState := StopState(s.nextId, false), nextId := s.nextId + 1)
  }

  function Restore(s: State): State {
    var saved := LastSaved(s.branch);
    if saved.Some? then Renew(s).(stopState := saved.value) else Renew(s)
  }

  function Input(s: State, source: Source, write: Write): State {
    var own := source == Extension && (s.ownCorrectionPending || s.stopState.used);
    var s' := s.(ownCorrectionPending := false);
    if own then s' else Persist(Renew(s'), write)
  }

  /** `requestOneCorrection`: mark the prompt, save the mark, send; take the mark
      back when sending throws. */
  function Request(s: State, gate: Gate, write: Write, sends: bool, rewrite: Write): State {
    if gate != Blocked || s.stopState.used then s
    else
      var marked := Persist(s.(stopState := s.stopState.(used := true)), write);
      if write != Written then marked
      else if sends then marked.(ownCorrectionPending := true, sent := s.sent + [s.stopState.promptId])
      else Persist(marked.(ownCorrectionPending := false, stopState := s.stopState.(used := false)), rewrite)
  }

  function Step(s: State, action: Action): State {
    match action
    case Restarts => Renew(s).(ownCorrectionPending := false)
    case Starts => Restore(s)
    case Inputs(source, write) => Input(s, source, write)
    case Settles(gate, write, sends, rewrite) => Request(s, gate, write, sends, rewrite)
    case OtherEntry => Append(s, Foreign)
    case MovesTo(branch) => if branch in s.nodes then s.(branch := branch) else s
  }

  function After(s: State, actions: seq<Action>): State
    decreases |actions|
  {
    if actions == [] then s else After(Step(s, actions[0]), actions[1..])
  }

  function Start(): State {
    State(StopState(0, false), false, 1, [], {[]}, [])
  }

  ghost predicate Stays(actions: seq<Action>) {
    forall a <- actions :: !a.MovesTo?
  }

  function Messages(s: State, p: nat): nat {
    multiset(s.sent)[p]
  }

  // ---------- Which prompts can still be corrected ----------

  /** `p` is uncorrected in memory, or would be after a restart. */
  predicate Open(s: State, p: nat) {
    s.stopState == StopState(p, false) || LastSaved(s.branch) == Some(StopState(p, false))
  }

  ghost predicate Issued(branch: seq<Entry>, nextId: nat) {
    forall e <- branch :: e.Saved? ==> e.state.promptId < nextId
  }

  ghost predicate Valid(s: State) {
    && s.stopState.promptId < s.nextId && s.branch in s.nodes
    && (forall b <- s.nodes :: Issued(b, s.nextId) && forall k :: 0 <= k <= |b| ==> b[..k] in s.nodes)
    && (forall p <- s.sent :: p < s.nextId)
  }

  lemma LastSavedAppended(branch: seq<Entry>, entry: Entry)
    ensures LastSaved(branch + [entry]) == if entry.Saved? then Some(entry.state) else LastSaved(branch)
  {
    assert (branch + [entry])[..|branch|] == branch;
  }

  lemma {:induction false} SavedIsIssued(branch: seq<Entry>, nextId: nat)
    requires Issued(branch, nextId)
    ensures LastSaved(branch).Some? ==> LastSaved(branch).value.promptId < nextId
  {
    if branch != [] {
      assert branch[|branch| - 1] in branch;
      assert forall e <- branch[..|branch| - 1] :: e in branch;
      SavedIsIssued(branch[..|branch| - 1], nextId);
    }
  }

  lemma AppendValid(s: State, entry: Entry)
    requires Valid(s) && (entry.Saved? ==> entry.state.promptId < s.nextId)
    ensures Valid(Append(s, entry)) && Append(s, entry).nextId == s.nextId
  {
    var s' := Append(s, entry);
    forall b <- s'.nodes ensures Issued(b, s'.nextId) && forall k :: 0 <= k <= |b| ==> b[..k] in s'.nodes {
      if b !in s.nodes {
        assert Issued(s.branch, s.nextId);
        forall k | 0 <= k <= |b| ensures b[..k] in s'.nodes {
          if k <= |s.branch| { assert b[..k] == s.branch[..k]; } else { assert b[..k] == b; }
        }
      }
    }
  }

  lemma RenewValid(s: State)
    requires Valid(s)
    ensures Valid(Renew(s))
  {
    forall b <- s.nodes ensures Issued(b, s.nextId + 1) { assert Issued(b, s.nextId); }
  }

  lemma StepValid(s: State, action: Action)
    requires Valid(s)
    ensures Valid(Step(s, action)) && s.nextId <= Step(s, action).nextId
  {
    hide Valid, Append, Issued;
    ValidParts(s);
    match action
    case Restarts => RenewValid(s); PendingValid(Renew(s), false);
    case Starts =>
      RenewValid(s);
      SavedIsIssued(s.branch, s.nextId);
      if LastSaved(s.branch).Some? { StateValid(Renew(s), LastSaved(s.branch).value); }
    case Inputs(source, write) =>
      var s' := s.(ownCorrectionPending := false);
      PendingValid(s, false);
      RenewValid(s');
      AppendValid(Renew(s'), Saved(Renew(s').stopState));
    case Settles(gate, write, sends, rewrite) => RequestValid(s, gate, write, sends, rewrite);
    case OtherEntry => AppendValid(s, Foreign);
    case MovesTo(branch) => if branch in s.nodes { MoveValid(s, branch); }
  }

  lemma ValidParts(s: State)
    requires Valid(s)
    ensures s.stopState.promptId < s.nextId && s.branch in s.nodes && Issued(s.branch, s.nextId)
  {
  }

  lemma PendingValid(s: State, pending: bool)
    requires Valid(s)
    ensures Valid(s.(ownCorrectionPending := pending))
  {
  }

  lemma StateValid(s: State, stopState: StopState)
    requires Valid(s) && stopState.promptId < s.nextId
    ensures Valid(s.(stopState := stopState))
  {
  }

  lemma MoveValid(s: State, branch: seq<Entry>)
    requires Valid(s) && branch in s.nodes
    ensures Valid(s.(branch := branch))
  {
  }

  lemma SentValid(s: State, p: nat)
    requires Valid(s) && p < s.nextId
    ensures Valid(s.(sent := s.sent + [p], ownCorrectionPending := true))
  {
  }

  lemma RequestValid(s: State, gate: Gate, write: Write, sends: bool, rewrite: Write)
    requires Valid(s)
    ensures Valid(Request(s, gate, write, sends, rewrite)) && Request(s, gate, write, sends, rewrite).nextId == s.nextId
  {
    hide Valid, Issued;
    ValidParts(s);
    var used := s.(stopState := s.stopState.(used := true));
    StateValid(s, used.stopState);
    AppendValid(used, Saved(used.stopState));
    var marked := Persist(used, write);
    SentValid(marked, s.stopState.promptId);
    PendingValid(marked, false);
    var back := marked.(ownCorrectionPending := false, stopState := s.stopState.(used := false));
    StateValid(marked.(ownCorrectionPending := false), back.stopState);
    AppendValid(back, Saved(back.stopState));
  }

  /** Staying on a branch, a prompt that is not open stays so and gets no
      message; an open one gets at most one and then is not open any more. */
  lemma OpenStep(s: State, action: Action, p: nat)
    requires Valid(s) && !action.MovesTo? && p < s.nextId
    ensures var s' := Step(s, action);
            && (!Open(s, p) ==> !Open(s', p) && Messages(s', p) == Messages(s, p))
            && Messages(s, p) <= Messages(s', p) <= Messages(s, p) + 1
            && (Messages(s', p) > Messages(s, p) ==> !Open(s', p))
  {
    hide Valid;
    forall entry: Entry { LastSavedAppended(s.branch, entry); }
    if action.Settles? { RequestOpen(s, action.gate, action.write, action.sends, action.rewrite, p); }
  }

  lemma RequestOpen(s: State, gate: Gate, write: Write, sends: bool, rewrite: Write, p: nat)
    ensures var s' := Request(s, gate, write, sends, rewrite);
            && (!Open(s, p) ==> !Open(s', p) && Messages(s', p) == Messages(s, p))
            && Messages(s, p) <= Messages(s', p) <= Messages(s, p) + 1
            && (Messages(s', p) > Messages(s, p) ==> !Open(s', p))
  {
    var q := s.stopState.promptId;
    var marked := s.branch + [Saved(StopState(q, true))];
    LastSavedAppended(s.branch, Saved(StopState(q, true)));
    LastSavedAppended(marked, Saved(StopState(q, false)));
  }

  /** Along one branch a prompt that was issued gets at most one more message,
      and none when it is not open. */
  lemma {:induction false} AtMostOneMore(s: State, actions: seq<Action>, p: nat)
    requires Valid(s) && Stays(actions) && p < s.nextId
    ensures Messages(After(s, actions), p) <= Messages(s, p) + (if Open(s, p) then 1 else 0)
    ensures !Open(s, p) ==> !Open(After(s, actions), p)
    decreases |actions|
  {
    hide Valid, Step, Open, Messages;
    if actions != [] {
      assert actions[0] in actions && forall a <- actions[1..] :: a in actions;
      OpenStep(s, actions[0], p);
      StepValid(s, actions[0]);
      AtMostOneMore(Step(s, actions[0]), actions[1..], p);
    }
  }

  lemma OpenCanBeSent(s: State, p: nat) returns (actions: seq<Action>)
    requires Open(s, p)
    ensures Stays(actions) && Messages(After(s, actions), p) > Messages(s, p)
  {
    hide Messages, Step;
    var settle := Settles(Blocked, Written, true, Written);
    assert [settle][1..] == [] && [Starts, settle][1..] == [settle];
    if s.stopState == StopState(p, false) {
      SettleSends(s, p);
      actions := [settle];
      assert After(s, actions) == After(Step(s, settle), []);
    } else {
      StartsRestores(s, p);
      SettleSends(Step(s, Starts), p);
      actions := [Starts, settle];
      assert After(s, actions) == After(Step(s, Starts), [settle]) == After(Step(Step(s, Starts), settle), []);
    }
  }

  lemma StartsRestores(s: State, p: nat)
    requires LastSaved(s.branch) == Some(StopState(p, false))
    ensures Step(s, Starts).stopState == StopState(p, false) && Messages(Step(s, Starts), p) == Messages(s, p)
  {
  }

  /** A prompt that was issued can get another message without leaving the
      branch exactly when it is open. */
  lemma CorrectableExactly(s: State, p: nat)
    requires Valid(s) && p < s.nextId
    ensures (exists actions :: Stays(actions) && Messages(After(s, actions), p) > Messages(s, p)) <==> Open(s, p)
  {
    hide Messages, Valid, Open, After, Stays;
    if actions :| Stays(actions) && Messages(After(s, actions), p) > Messages(s, p) {
      AtMostOneMore(s, actions, p);
    }
    if Open(s, p) { var actions := OpenCanBeSent(s, p); }
  }

  lemma SettleSends(s: State, p: nat)
    requires s.stopState == StopState(p, false)
    ensures Messages(Step(s, Settles(Blocked, Written, true, Written)), p) == Messages(s, p) + 1
  {
  }

  // ---------- Any session ----------

  lemma {:induction false} Reaches(s: State, actions: seq<Action>)
    requires Valid(s)
    ensures Valid(After(s, actions))
    decreases |actions|
  {
    hide Valid, Step;
    if actions != [] {
      StepValid(s, actions[0]);
      Reaches(Step(s, actions[0]), actions[1..]);
    }
  }

  lemma StartIsValid()
    ensures Valid(Start())
  {
    assert forall b <- Start().nodes, k :: 0 <= k <= |b| ==> b[..k] == [];
  }

  /** New prompts have no message yet. */
  ghost predicate OncePerPrompt(s: State) {
    forall p: nat :: Messages(s, p) <= 1 && (Messages(s, p) == 1 ==> p < s.nextId && !Open(s, p))
  }

  lemma OnceStep(s: State, action: Action)
    requires Valid(s) && !action.MovesTo? && OncePerPrompt(s)
    ensures OncePerPrompt(Step(s, action))
  {
    hide Valid, Step, Open;
    var s' := Step(s, action);
    StepValid(s, action);
    forall p: nat ensures Messages(s', p) <= 1 && (Messages(s', p) == 1 ==> p < s'.nextId && !Open(s', p)) {
      if p < s.nextId {
        OpenStep(s, action, p);
        NoneWhenSent(s, p);
      } else {
        NoMessageYet(s, action, p);
      }
    }
  }

  lemma NoneWhenSent(s: State, p: nat)
    requires OncePerPrompt(s)
    ensures Messages(s, p) == 1 ==> !Open(s, p)
  {
  }

  lemma NoMessageYet(s: State, action: Action, p: nat)
    requires Valid(s) && p >= s.nextId
    ensures Messages(Step(s, action), p) == 0
  {
    hide LastSaved, Issued;
    assert p !in s.sent && s.stopState.promptId != p;
    assert p !in Step(s, action).sent;
  }

  lemma {:induction false} OnceAlong(s: State, actions: seq<Action>)
    requires Valid(s) && OncePerPrompt(s) && Stays(actions)
    ensures OncePerPrompt(After(s, actions))
    decreases |actions|
  {
    hide Valid, Step, OncePerPrompt;
    if actions != [] {
      assert actions[0] in actions && forall a <- actions[1..] :: a in actions;
      OnceStep(s, actions[0]);
      StepValid(s, actions[0]);
      OnceAlong(Step(s, actions[0]), actions[1..]);
    }
  }

  /** Along one branch, whatever restarts and failures to save or send happen,
      no prompt gets two corrective messages. */
  lemma OneCorrectionPerPrompt(actions: seq<Action>, p: nat)
    requires Stays(actions)
    ensures Messages(After(Start(), actions), p) <= 1
  {
    StartIsValid();
    OnceAlong(Start(), actions);
  }

  // ---------- Forks ----------

  /** The session continues from an earlier place, and the extension starts there. */
  function Fork(s: State, k: nat): State
    requires k <= |s.branch|
  {
    Step(Step(s, MovesTo(s.branch[..k])), Starts)
  }

  /** In every session, forks and moves included: a prompt that was corrected
      can be corrected again after a fork exactly when the state saved last
      before the fork's place shows it uncorrected. */
  lemma CorrectedAgainExactly(actions: seq<Action>, k: nat, p: nat)
    requires var s := After(Start(), actions); k <= |s.branch| && p in s.sent
    ensures var s := After(Start(), actions);
            (exists rest :: Stays(rest) && Messages(After(Fork(s, k), rest), p) > Messages(s, p))
            <==> LastSaved(s.branch[..k]) == Some(StopState(p, false))
  {
    hide After, Messages, LastSaved, Restore;
    StartIsValid();
    Reaches(Start(), actions);
    var s := After(Start(), actions);
    PrefixIsNode(s, k, p);
    var moved := Step(s, MovesTo(s.branch[..k]));
    StepValid(s, MovesTo(s.branch[..k]));
    StepValid(moved, Starts);
    RestoredOpen(moved, p);
    CorrectableExactly(Fork(s, k), p);
    assert Messages(Fork(s, k), p) == Messages(s, p) by { SameMessages(s, moved, p); }
  }

  lemma PrefixIsNode(s: State, k: nat, p: nat)
    requires Valid(s) && k <= |s.branch| && p in s.sent
    ensures s.branch[..k] in s.nodes && p < s.nextId
  {
  }

  lemma RestoredOpen(s: State, p: nat)
    requires p < s.nextId
    ensures Open(Step(s, Starts), p) <==> LastSaved(s.branch) == Some(StopState(p, false))
    ensures Step(s, Starts).sent == s.sent && Step(s, Starts).branch == s.branch
  {
  }

  lemma SameMessages(s: State, moved: State, p: nat)
    requires moved.sent == s.sent
    ensures Messages(Step(moved, Starts), p) == Messages(s, p)
  {
  }

  /** A prompt is saved, corrected, and after a fork to where it was saved
      corrected a second time. */
  lemma SecondMessageAfterFork()
    ensures var before := [Inputs(Interactive, Written), Settles(Blocked, Written, true, Written)];
            var s := After(Start(), before);
            && s.sent == [1] && s.branch == [Saved(StopState(1, false)), Saved(StopState(1, true))]
            && Step(Fork(s, 1), Settles(Blocked, Written, true, Written)).sent == [1, 1]
  {
    var input, settle := Inputs(Interactive, Written), Settles(Blocked, Written, true, Written);
    var before := [input, settle];
    assert before[1..] == [settle] && [settle][1..] == [];
    var s1 := Step(Start(), input);
    assert s1.stopState == StopState(1, false) && s1.branch == [Saved(StopState(1, false))];
    var s := Step(s1, settle);
    assert After(Start(), before) == After(s1, [settle]) == After(s, []) == s;
    assert s.branch[..1] == [Saved(StopState(1, false))];
    assert LastSaved([Saved(StopState(1, false))]) == Some(StopState(1, false));
  }

  // ---------- The extension ----------

  class Guard {
    var stopState: StopState
    var ownCorrectionPending: bool
    var nextId: nat
    var branch: seq<Entry>
    ghost var model: State

    ghost predicate Represents()
      reads this
    {
      && stopState == model.stopState && ownCorrectionPending == model.ownCorrectionPending
      && nextId == model.nextId && branch == model.branch
    }

    constructor ()
      ensures Represents() && model == Start()
    {
      stopState, ownCorrectionPending, nextId, branch := StopState(0, false), false, 1, [];
      model := Start();
    }

    method NewStopState()
      requires Represents()
      modifies this`stopState, this`nextId, this`model
      ensures Represents() && model == Renew(old(model))
    {
      stopState := StopState(nextId, false);
      nextId := nextId + 1;
      model := Renew(model);
    }

    /** What appending an entry comes to is an input. */
    method PersistStopState(write: Write) returns (ok: bool)
      requires Represents()
      modifies this`branch, this`model
      ensures Represents() && model == Persist(old(model), write) && ok == (write == Written)
    {
      if write.NotWritten? { return false; }
      branch := branch + [Saved(stopState)];
      model := Append(model, Saved(stopState));
      ok := write.Written?;
    }

    method RestoreStopState()
      requires Represents()
      modifies this`stopState, this`nextId, this`model
      ensures Represents() && model == Restore(old(model))
    {
      NewStopState();
      var restored := stopState;
      ghost var initial := restored;
      var i := 0;
      while i < |branch|
        invariant 0 <= i <= |branch| && Represents() && model == Renew(old(model)) && stopState == initial
        invariant restored == if LastSaved(branch[..i]).Some? then LastSaved(branch[..i]).value else initial
      {
        assert branch[..i + 1] == branch[..i] + [branch[i]];
        LastSavedAppended(branch[..i], branch[i]);
        if branch[i].Saved? { restored := branch[i].state; }
        i := i + 1;
      }
      assert branch[..i] == branch;
      stopState := restored;
      model := model.(stopState := restored);
    }

    /** A new process: nothing in memory survives. */
    method Restart()
      requires Represents()
      modifies this`stopState, this`ownCorrectionPending, this`nextId, this`model
      ensures Represents() && model == Step(old(model), Restarts)
    {
      NewStopState();
      ownCorrectionPending := false;
      model := model.(ownCorrectionPending := false);
    }

    /** The `input` handler: the extension's own correction keeps the guard, other
        input resets it. */
    method OnInput(source: Source, write: Write)
      requires Represents()
      modifies this`stopState, this`ownCorrectionPending, this`nextId, this`branch, this`model
      ensures Represents() && model == Step(old(model), Inputs(source, write))
      ensures if source == Extension && (old(ownCorrectionPending) || old(stopState).used)
              then stopState == old(stopState) && branch == old(branch)
              else stopState == StopState(old(nextId), false)
    {
      if source == Extension && (ownCorrectionPending || stopState.used) {
        ownCorrectionPending := false;
        model := model.(ownCorrectionPending := false);
      } else {
        ownCorrectionPending := false;
        model := model.(ownCorrectionPending := false);
        NewStopState();
        var ok := PersistStopState(write);
      }
    }

    /** `requestOneCorrection`: the message goes out exactly for a blocked prompt
        that had none, when the mark was saved and sending did not throw. */
    method RequestOneCorrection(gate: Gate, write: Write, sends: bool, rewrite: Write)
      requires Represents()
      modifies this`stopState, this`ownCorrectionPending, this`branch, this`model
      ensures Represents() && model == Step(old(model), Settles(gate, write, sends, rewrite))
      ensures model.sent == old(model).sent + (
                if gate == Blocked && !old(stopState).used && write == Written && sends
                then [old(stopState).promptId] else [])
    {
      if gate != Blocked { return; }
      if stopState.used { return; }
      stopState := stopState.(used := true);
      model := model.(stopState := stopState);
      var persisted := PersistStopState(write);
      if !persisted { return; }
      ownCorrectionPending := true;
      model := model.(ownCorrectionPending := true);
      if !sends {
        ownCorrectionPending := false;
        stopState := stopState.(used := false);
        model := model.(ownCorrectionPending := false, stopState := stopState);
        var ok := PersistStopState(rewrite);
        return;
      }
      model := model.(sent := model.sent + [stopState.promptId]);
    }
  }
}
