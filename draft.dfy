/**
 * The onboarding wizard on the client.  Every button handler is a
 * functional `setState` updater, so each is a pure transition on `State`.
 * A handler may only run when its button is on screen and enabled; those
 * conditions are its `requires`.
 *
 * Two handlers are modelled twice: as written, and corrected.  The
 * corrected wizard (`corrected == true` in `Next` and `Run`) keeps two
 * invariants the one as written breaks: `Clean` and `Covered`.
 */
module Draft {
  import opened Optional
  import opened Records
  import opened Schema

  datatype Step = HouseholdStep | AreasStep | ChoresStep | CheckStep

  /** The four controlled inputs. */
  datatype Inputs = Inputs(householdName: string, areaName: string, choreName: string, choreDescription: string)

  /** An entry of the local review list `chores`. */
  datatype ReviewChore = ReviewChore(name: string, description: string)

  /** A chore of the draft; `description` is absent when only a name was flushed. */
  datatype DraftChore = DraftChore(name: string, description: Option<string>)

  /** `formValues`: the draft that is submitted. */
  datatype FormValues = FormValues(householdName: string, areas: Rec<seq<string>>, chores: seq<DraftChore>)

  datatype State = State(step: Step, inputs: Inputs, review: seq<ReviewChore>, form: FormValues)

  const Init := State(HouseholdStep, Inputs("", "", "", ""), [], FormValues("", [], []))

  // ------------------------------------------------------------- helpers

  /** `{...areas, [k]: []}`. */
  function NewArea(areas: Rec<seq<string>>, k: string): (r: Rec<seq<string>>)
    ensures Keys(r) == if k in Keys(areas) then Keys(areas) else Keys(areas) + [k]
    ensures Get(r, k) == Some([])
    ensures forall j :: j != k ==> Get(r, j) == Get(areas, j)
    ensures DistinctKeys(areas) ==> DistinctKeys(r)
  {
    PutKeys(areas, k, []);
    assert DistinctKeys(areas) ==> DistinctKeys(Put(areas, k, [])) by {
      if DistinctKeys(areas) {
        PutDistinct(areas, k, []);
      }
    }
    Put(areas, k, [])
  }

  /** `{...areas, [k]: [...areas[k], ...tail]}` for a key that is present. */
  function Extend(areas: Rec<seq<string>>, k: string, tail: seq<string>): (r: Rec<seq<string>>)
    requires k in Keys(areas)
    ensures Keys(r) == Keys(areas)
    ensures Get(r, k) == Some(Get(areas, k).value + tail)
    ensures forall j :: j != k ==> Get(r, j) == Get(areas, j)
    ensures DistinctKeys(areas) ==> DistinctKeys(r)
    ensures tail == [] ==> r == areas
  {
    var v := Get(areas, k).value + tail;
    PutKeys(areas, k, v);
    assert DistinctKeys(areas) ==> DistinctKeys(Put(areas, k, v)) by {
      if DistinctKeys(areas) {
        PutDistinct(areas, k, v);
      }
    }
    assert tail == [] ==> Put(areas, k, v) == areas by {
      if tail == [] {
        assert v == Get(areas, k).value;
        PutSame(areas, k);
      }
    }
    Put(areas, k, v)
  }

  /** The pending chore under the check step's rule: with its note, with its name only, or nothing. */
  function Pending(i: Inputs): seq<DraftChore>
  {
    if i.choreName != "" && i.choreDescription != "" then [DraftChore(i.choreName, Some(i.choreDescription))]
    else if i.choreName != "" then [DraftChore(i.choreName, None)]
    else []
  }

  /** The chore name that joins the current area's list under the same rule. */
  function PendingName(i: Inputs): seq<string>
  {
    if i.choreName != "" then [i.choreName] else []
  }

  function Cleared(i: Inputs): Inputs
  {
    i.(areaName := "", choreName := "", choreDescription := "")
  }

  // ------------------------------------------------------------ handlers

  /** `handleGoToAreas`: the household name enters the draft. */
  function GoToAreas(s: State): (r: State)
    requires s.step == HouseholdStep && |s.inputs.householdName| > 0
    ensures r.step == AreasStep
    ensures r.form.householdName == s.inputs.householdName
    ensures r.form.areas == s.form.areas && r.form.chores == s.form.chores
    ensures r.inputs == s.inputs && r.review == s.review
  {
    s.(step := AreasStep, form := s.form.(householdName := s.inputs.householdName))
  }

  /** `handleAddAnotherArea`: the area gets an empty list, replacing any it had; the input clears. */
  function AddAnotherArea(s: State): (r: State)
    requires s.step == AreasStep && |s.inputs.areaName| > 0
    ensures r.step == AreasStep
    ensures Get(r.form.areas, s.inputs.areaName) == Some([])
    ensures forall k :: k != s.inputs.areaName ==> Get(r.form.areas, k) == Get(s.form.areas, k)
    ensures s.inputs.areaName in Keys(r.form.areas)
    ensures forall k :: k in Keys(s.form.areas) ==> k in Keys(r.form.areas)
    ensures r.inputs == s.inputs.(areaName := "")
    ensures r.form.householdName == s.form.householdName && r.form.chores == s.form.chores
    ensures r.review == s.review
  {
    s.(inputs := s.inputs.(areaName := ""), form := s.form.(areas := NewArea(s.form.areas, s.inputs.areaName)))
  }

  /** `handleGoToChores`: as `AddAnotherArea`, but the area name stays and the step moves on. */
  function GoToChores(s: State): (r: State)
    requires s.step == AreasStep && |s.inputs.areaName| > 0
    ensures r.step == ChoresStep
    ensures Get(r.form.areas, s.inputs.areaName) == Some([])
    ensures forall k :: k != s.inputs.areaName ==> Get(r.form.areas, k) == Get(s.form.areas, k)
    ensures r.inputs.areaName in Keys(r.form.areas)
    ensures forall k :: k in Keys(s.form.areas) ==> k in Keys(r.form.areas)
    ensures r.inputs == s.inputs
    ensures r.form.householdName == s.form.householdName && r.form.chores == s.form.chores
    ensures r.review == s.review
  {
    s.(step := ChoresStep, form := s.form.(areas := NewArea(s.form.areas, s.inputs.areaName)))
  }

  /**
   * `handleAddAnotherChore` as written: the review list and the area's
   * list grow, but the draft's chores become the review list plus the new
   * chore, so whatever the draft held that the review list lacks is lost.
   */
  function AddAnotherChore(s: State): (r: State)
    requires s.step == ChoresStep && |s.inputs.choreName| > 0
    requires s.inputs.areaName in Keys(s.form.areas)
    ensures r.step == ChoresStep
    ensures r.review == s.review + [ReviewChore(s.inputs.choreName, s.inputs.choreDescription)]
    ensures |r.form.chores| == |r.review|
    ensures forall i :: 0 <= i < |r.review| ==>
      r.form.chores[i] == DraftChore(r.review[i].name, Some(r.review[i].description))
    ensures Get(r.form.areas, s.inputs.areaName) == Some(Get(s.form.areas, s.inputs.areaName).value + [s.inputs.choreName])
    ensures forall k :: k != s.inputs.areaName ==> Get(r.form.areas, k) == Get(s.form.areas, k)
    ensures Keys(r.form.areas) == Keys(s.form.areas)
    ensures r.inputs == s.inputs.(choreName := "", choreDescription := "")
    ensures r.form.householdName == s.form.householdName
  {
    var added := ReviewChore(s.inputs.choreName, s.inputs.choreDescription);
    var review := s.review + [added];
    State(ChoresStep, s.inputs.(choreName := "", choreDescription := ""), review,
          s.form.(areas := Extend(s.form.areas, s.inputs.areaName, [s.inputs.choreName]),
                  chores := seq(|review|, i requires 0 <= i < |review| => DraftChore(review[i].name, Some(review[i].description)))))
  }

  /** `handleAddAnotherChore` corrected: the new chore is appended to the draft's own list. */
  function AddAnotherChoreCorrected(s: State): (r: State)
    requires s.step == ChoresStep && |s.inputs.choreName| > 0
    requires s.inputs.areaName in Keys(s.form.areas)
    ensures r.step == ChoresStep
    ensures r.review == s.review + [ReviewChore(s.inputs.choreName, s.inputs.choreDescription)]
    ensures r.form.chores == s.form.chores + [DraftChore(s.inputs.choreName, Some(s.inputs.choreDescription))]
    ensures Get(r.form.areas, s.inputs.areaName) == Some(Get(s.form.areas, s.inputs.areaName).value + [s.inputs.choreName])
    ensures forall k :: k != s.inputs.areaName ==> Get(r.form.areas, k) == Get(s.form.areas, k)
    ensures Keys(r.form.areas) == Keys(s.form.areas)
    ensures r.inputs == s.inputs.(choreName := "", choreDescription := "")
    ensures r.form.householdName == s.form.householdName
  {
    State(ChoresStep, s.inputs.(choreName := "", choreDescription := ""),
          s.review + [ReviewChore(s.inputs.choreName, s.inputs.choreDescription)],
          s.form.(areas := Extend(s.form.areas, s.inputs.areaName, [s.inputs.choreName]),
                  chores := s.form.chores + [DraftChore(s.inputs.choreName, Some(s.inputs.choreDescription))]))
  }

  /**
   * `handleGoToAreasFromChores` as written: the pending chore is appended
   * to the draft and its name to the area's list without any check, even
   * when the chore name is empty.
   */
  function GoToAreasFromChores(s: State): (r: State)
    requires s.step == ChoresStep
    requires s.inputs.areaName in Keys(s.form.areas)
    ensures r.step == AreasStep
    ensures r.form.chores == s.form.chores + [DraftChore(s.inputs.choreName, Some(s.inputs.choreDescription))]
    ensures Get(r.form.areas, s.inputs.areaName) == Some(Get(s.form.areas, s.inputs.areaName).value + [s.inputs.choreName])
    ensures forall k :: k != s.inputs.areaName ==> Get(r.form.areas, k) == Get(s.form.areas, k)
    ensures Keys(r.form.areas) == Keys(s.form.areas)
    ensures r.inputs == s.inputs.(areaName := "", choreName := "", choreDescription := "")
    ensures r.review == s.review && r.form.householdName == s.form.householdName
  {
    State(AreasStep, Cleared(s.inputs), s.review,
          s.form.(chores := s.form.chores + [DraftChore(s.inputs.choreName, Some(s.inputs.choreDescription))],
                  areas := Extend(s.form.areas, s.inputs.areaName, [s.inputs.choreName])))
  }

  /** `handleGoToAreasFromChores` corrected: the pending chore is flushed as the check step does. */
  function GoToAreasFromChoresCorrected(s: State): (r: State)
    requires s.step == ChoresStep
    requires s.inputs.areaName in Keys(s.form.areas)
    ensures r.step == AreasStep
    ensures r.form == GoToCheck(s).form && r.inputs == GoToCheck(s).inputs && r.review == GoToCheck(s).review
  {
    State(AreasStep, Cleared(s.inputs), s.review,
          s.form.(chores := s.form.chores + Pending(s.inputs),
                  areas := Extend(s.form.areas, s.inputs.areaName, PendingName(s.inputs))))
  }

  /**
   * `handleGoToCheck`: the pending chore is flushed by the three-way rule,
   * the area's list grows only when a chore name was typed, and the area
   * and chore inputs clear.
   */
  function GoToCheck(s: State): (r: State)
    requires s.step == ChoresStep
    requires s.inputs.areaName in Keys(s.form.areas)
    ensures r.step == CheckStep
    ensures var n, d := s.inputs.choreName, s.inputs.choreDescription;
      && (n != "" && d != "" ==> r.form.chores == s.form.chores + [DraftChore(n, Some(d))])
      && (n != "" && d == "" ==> r.form.chores == s.form.chores + [DraftChore(n, None)])
      && (n == "" ==> r.form.chores == s.form.chores)
    ensures var n, a := s.inputs.choreName, s.inputs.areaName;
      && (n != "" ==> Get(r.form.areas, a) == Some(Get(s.form.areas, a).value + [n]))
      && (n == "" ==> r.form.areas == s.form.areas)
    ensures forall k :: k != s.inputs.areaName ==> Get(r.form.areas, k) == Get(s.form.areas, k)
    ensures Keys(r.form.areas) == Keys(s.form.areas)
    ensures r.inputs == s.inputs.(areaName := "", choreName := "", choreDescription := "")
    ensures r.review == s.review && r.form.householdName == s.form.householdName
  {
    State(CheckStep, Cleared(s.inputs), s.review,
          s.form.(chores := s.form.chores + Pending(s.inputs),
                  areas := Extend(s.form.areas, s.inputs.areaName, PendingName(s.inputs))))
  }

  /**
   * `handleSubmit`, with the JSON round trip of `areas` and `chores`
   * folded in: the fields as the action sees them.  The household name is
   * taken from the input, not from the draft.
   */
  function Submit(s: State): (f: RawFields)
    requires s.step == CheckStep
    ensures f.householdName == s.inputs.householdName && f.areas == s.form.areas
    ensures |f.chores| == |s.form.chores|
    ensures forall i :: 0 <= i < |f.chores| ==>
      f.chores[i] == RawChore(Some(s.form.chores[i].name), s.form.chores[i].description, None, None, None)
  {
    RawFields(s.inputs.householdName, s.form.areas,
              seq(|s.form.chores|, i requires 0 <= i < |s.form.chores| =>
                RawChore(Some(s.form.chores[i].name), s.form.chores[i].description, None, None, None)))
  }

  // -------------------------------------------------------------- events

  datatype Field = HouseholdNameInput | AreaNameInput | ChoreNameInput | ChoreDescriptionInput

  datatype Button =
    | GoToAreasButton | AddAnotherAreaButton | GoToChoresButton
    | AddAnotherChoreButton | GoToAreasFromChoresButton | GoToCheckButton

  datatype Event = Type(field: Field, value: string) | Click(button: Button)

  /** The input is on screen, and the note is enabled only once a chore name is typed. */
  predicate Editable(s: State, f: Field)
  {
    match f
    case HouseholdNameInput => s.step == HouseholdStep
    case AreaNameInput => s.step == AreasStep
    case ChoreNameInput => s.step == ChoresStep
    case ChoreDescriptionInput => s.step == ChoresStep && s.inputs.choreName != ""
  }

  /** `handleChange`: `{...state, [name]: value}`. */
  function Typed(i: Inputs, f: Field, v: string): Inputs
  {
    match f
    case HouseholdNameInput => i.(householdName := v)
    case AreaNameInput => i.(areaName := v)
    case ChoreNameInput => i.(choreName := v)
    case ChoreDescriptionInput => i.(choreDescription := v)
  }

  /** The button is on screen and its `disabled` flag is off. */
  predicate Enabled(s: State, b: Button)
  {
    match b
    case GoToAreasButton => s.step == HouseholdStep && |s.inputs.householdName| > 0
    case AddAnotherAreaButton => s.step == AreasStep && |s.inputs.areaName| > 0
    case GoToChoresButton => s.step == AreasStep && |s.inputs.areaName| > 0
    case AddAnotherChoreButton => s.step == ChoresStep && |s.inputs.choreName| > 0
    case GoToAreasFromChoresButton => s.step == ChoresStep
    case GoToCheckButton => s.step == ChoresStep
  }

  predicate Allowed(s: State, e: Event)
  {
    match e
    case Type(f, _) => Editable(s, f)
    case Click(b) => Enabled(s, b)
  }

  /**
   * One user event.  `None` when the event cannot happen (the control is
   * absent or disabled) or would make an updater throw (a chore handler
   * reading the list of an area that is not in the draft).
   */
  function Next(s: State, e: Event, corrected: bool): (r: Option<State>)
    ensures Inv(s) ==> (r.Some? <==> Allowed(s, e))
  {
    if !Allowed(s, e) then None
    else match e
      case Type(f, v) => Some(s.(inputs := Typed(s.inputs, f, v)))
      case Click(b) =>
        match b
        case GoToAreasButton => Some(GoToAreas(s))
        case AddAnotherAreaButton => Some(AddAnotherArea(s))
        case GoToChoresButton => Some(GoToChores(s))
        case AddAnotherChoreButton =>
          if s.inputs.areaName !in Keys(s.form.areas) then None
          else Some(if corrected then AddAnotherChoreCorrected(s) else AddAnotherChore(s))
        case GoToAreasFromChoresButton =>
          if s.inputs.areaName !in Keys(s.form.areas) then None
          else Some(if corrected then GoToAreasFromChoresCorrected(s) else GoToAreasFromChores(s))
        case GoToCheckButton =>
          if s.inputs.areaName !in Keys(s.form.areas) then None
          else Some(GoToCheck(s))
  }

  /** A sequence of events from `s`, stopping at the first that cannot happen. */
  function Run(s: State, es: seq<Event>, corrected: bool): Option<State>
    decreases |es|
  {
    if es == [] then Some(s)
    else
      var t := Next(s, es[0], corrected);
      if t.None? then None else Run(t.value, es[1..], corrected)
  }

  // ----------------------------------------------------------- invariants

  /**
   * What every reachable state satisfies: area keys are distinct and
   * non-empty, the chore step's area is in the draft, and past the first
   * step the draft's household name is the (non-empty) input.
   */
  predicate Inv(s: State)
  {
    && DistinctKeys(s.form.areas)
    && (forall k :: k in Keys(s.form.areas) ==> k != "")
    && (s.step == ChoresStep ==> s.inputs.areaName in Keys(s.form.areas))
    && (s.step != HouseholdStep ==> s.form.householdName == s.inputs.householdName && s.inputs.householdName != "")
  }

  lemma InitInv()
    ensures Inv(Init)
  {
  }

  lemma {:induction false} NextInv(s: State, e: Event, corrected: bool)
    requires Inv(s) && Next(s, e, corrected).Some?
    ensures Inv(Next(s, e, corrected).value)
  {
    var t := Next(s, e, corrected).value;
    if e.Click? && e.button in {AddAnotherAreaButton, GoToChoresButton} {
      assert forall k :: k in Keys(t.form.areas) ==> k in Keys(s.form.areas) || k == s.inputs.areaName;
    }
  }

  /** Every state the wizard reaches from an `Inv` state satisfies `Inv`. */
  lemma {:induction false} RunInv(s: State, es: seq<Event>, corrected: bool)
    requires Inv(s)
    ensures Run(s, es, corrected).Some? ==> Inv(Run(s, es, corrected).value)
    decreases |es|
  {
    if es != [] {
      var t := Next(s, es[0], corrected);
      if t.Some? {
        NextInv(s, es[0], corrected);
        RunInv(t.value, es[1..], corrected);
      }
    }
  }

  /** In every reachable state no chore handler throws: an allowed event always happens. */
  lemma NoThrow(es: seq<Event>, e: Event, corrected: bool)
    requires Run(Init, es, corrected).Some? && Allowed(Run(Init, es, corrected).value, e)
    ensures Next(Run(Init, es, corrected).value, e, corrected).Some?
  {
    RunInv(Init, es, corrected);
  }

  /** Submitting a reachable draft sends the draft's own household name, which is non-empty. */
  lemma SubmittedHousehold(s: State)
    requires Inv(s) && s.step == CheckStep
    ensures Submit(s).householdName == s.form.householdName
    ensures Submit(s).householdName != ""
  {
  }

  // ------------------------------------------------- the corrected wizard

  /** No chore name listed under an area is empty. */
  predicate ListsClean(areas: Rec<seq<string>>)
  {
    forall i, x :: 0 <= i < |areas| && x in areas[i].1 ==> x != ""
  }

  /** Every chore name listed under an area names a chore of `chores`. */
  predicate ListsCovered(areas: Rec<seq<string>>, chores: seq<DraftChore>)
  {
    forall i, x :: 0 <= i < |areas| && x in areas[i].1 ==> exists c :: c in chores && c.name == x
  }

  /** No empty chore name in the draft's chores or in its area lists. */
  predicate Clean(s: State)
  {
    (forall i :: 0 <= i < |s.form.chores| ==> s.form.chores[i].name != "") && ListsClean(s.form.areas)
  }

  /** Every chore name listed under an area is the name of a chore of the draft. */
  predicate Covered(s: State)
  {
    ListsCovered(s.form.areas, s.form.chores)
  }

  /** A fact about the lists under each key carries over an update of one key. */
  lemma {:induction false} ListsAfterUpdate(before: Rec<seq<string>>, after: Rec<seq<string>>, k: string, extra: seq<string>)
    requires DistinctKeys(before) && DistinctKeys(after)
    requires k in Keys(before)
    requires Keys(after) == Keys(before)
    requires Get(after, k) == Some(Get(before, k).value + extra)
    requires forall j :: j != k ==> Get(after, j) == Get(before, j)
    ensures forall i, x :: 0 <= i < |after| && x in after[i].1 ==>
      x in extra || exists i' :: 0 <= i' < |before| && x in before[i'].1
  {
    forall i, x | 0 <= i < |after| && x in after[i].1
      ensures x in extra || exists i' :: 0 <= i' < |before| && x in before[i'].1
    {
      GetAt(after, i);
      KeysAt(after, i);
      var key := after[i].0;
      assert key in Keys(before);
      var i' :| 0 <= i' < |before| && Keys(before)[i'] == key;
      KeysAt(before, i');
      GetAt(before, i');
      if key != k {
        assert after[i].1 == before[i'].1;
      } else {
        assert after[i].1 == before[i'].1 + extra;
      }
    }
  }

  /** Same, for a key that is given a fresh empty list. */
  lemma {:induction false} ListsAfterReset(before: Rec<seq<string>>, after: Rec<seq<string>>, k: string)
    requires DistinctKeys(before) && DistinctKeys(after)
    requires forall j :: j in Keys(after) ==> j in Keys(before) || j == k
    requires Get(after, k) == Some([])
    requires forall j :: j != k ==> Get(after, j) == Get(before, j)
    ensures forall i, x :: 0 <= i < |after| && x in after[i].1 ==>
      exists i' :: 0 <= i' < |before| && x in before[i'].1
  {
    forall i | 0 <= i < |after|
      ensures after[i].1 == [] || exists i' :: 0 <= i' < |before| && after[i].1 == before[i'].1
    {
      GetAt(after, i);
      KeysAt(after, i);
      var key := after[i].0;
      if key != k {
        assert key in Keys(before);
        var i' :| 0 <= i' < |before| && Keys(before)[i'] == key;
        KeysAt(before, i');
        GetAt(before, i');
        assert after[i].1 == before[i'].1;
      }
    }
  }


  /** `ListsCovered` carries over when the lists only gain names that the new chores cover. */
  lemma CoveredAfter(before: Rec<seq<string>>, after: Rec<seq<string>>, extra: seq<string>,
                     chores: seq<DraftChore>, chores': seq<DraftChore>)
    requires ListsCovered(before, chores)
    requires forall i, x :: 0 <= i < |after| && x in after[i].1 ==>
      x in extra || exists i' :: 0 <= i' < |before| && x in before[i'].1
    requires forall c :: c in chores ==> c in chores'
    requires forall x :: x in extra ==> exists c :: c in chores' && c.name == x
    ensures ListsCovered(after, chores')
  {
    forall i, x | 0 <= i < |after| && x in after[i].1 ensures exists c :: c in chores' && c.name == x {
      if x !in extra {
        var i' :| 0 <= i' < |before| && x in before[i'].1;
        var c :| c in chores && c.name == x;
        assert c in chores';
      }
    }
  }

  /** The corrected wizard keeps `Clean` and `Covered`. */
  lemma {:induction false} CorrectedNext(s: State, e: Event)
    requires Inv(s) && Clean(s) && Covered(s) && Next(s, e, true).Some?
    ensures Clean(Next(s, e, true).value) && Covered(Next(s, e, true).value)
  {
    NextInv(s, e, true);
    if e.Click? {
      match e.button
      case AddAnotherAreaButton => CorrectedReset(s, e.button);
      case GoToChoresButton => CorrectedReset(s, e.button);
      case AddAnotherChoreButton => CorrectedAddChore(s);
      case GoToAreasFromChoresButton => CorrectedFlush(s, e.button);
      case GoToCheckButton => CorrectedFlush(s, e.button);
      case GoToAreasButton =>
    }
  }

  /** Leaving the areas step for a new area keeps both invariants. */
  lemma CorrectedReset(s: State, b: Button)
    requires b == AddAnotherAreaButton || b == GoToChoresButton
    requires Inv(s) && Clean(s) && Covered(s) && Next(s, Click(b), true).Some?
    ensures Clean(Next(s, Click(b), true).value) && Covered(Next(s, Click(b), true).value)
  {
    var t := Next(s, Click(b), true).value;
    ListsAfterReset(s.form.areas, t.form.areas, s.inputs.areaName);
  }

  /** "Another chore" in the corrected wizard keeps both invariants. */
  lemma CorrectedAddChore(s: State)
    requires Inv(s) && Clean(s) && Covered(s) && Next(s, Click(AddAnotherChoreButton), true).Some?
    ensures Clean(Next(s, Click(AddAnotherChoreButton), true).value)
    ensures Covered(Next(s, Click(AddAnotherChoreButton), true).value)
  {
    var t := Next(s, Click(AddAnotherChoreButton), true).value;
    ListsAfterUpdate(s.form.areas, t.form.areas, s.inputs.areaName, [s.inputs.choreName]);
    assert t.form.chores[|s.form.chores|] in t.form.chores;
    CoveredAfter(s.form.areas, t.form.areas, [s.inputs.choreName], s.form.chores, t.form.chores);
  }

  /** Leaving the chores step, which flushes the pending chore, keeps both invariants. */
  lemma CorrectedFlush(s: State, b: Button)
    requires b == GoToAreasFromChoresButton || b == GoToCheckButton
    requires Inv(s) && Clean(s) && Covered(s) && Next(s, Click(b), true).Some?
    ensures Clean(Next(s, Click(b), true).value) && Covered(Next(s, Click(b), true).value)
  {
    var t := Next(s, Click(b), true).value;
    assert t.form.chores == s.form.chores + Pending(s.inputs);
    ListsAfterUpdate(s.form.areas, t.form.areas, s.inputs.areaName, PendingName(s.inputs));
    if s.inputs.choreName != "" {
      assert t.form.chores[|s.form.chores|] in t.form.chores;
    }
    CoveredAfter(s.form.areas, t.form.areas, PendingName(s.inputs), s.form.chores, t.form.chores);
  }

  /** Every state the corrected wizard reaches from a state with all three invariants keeps them. */
  lemma {:induction false} CorrectedRun(s: State, es: seq<Event>)
    requires Inv(s) && Clean(s) && Covered(s)
    ensures Run(s, es, true).Some? ==>
      var t := Run(s, es, true).value; Inv(t) && Clean(t) && Covered(t)
    decreases |es|
  {
    if es != [] {
      var t := Next(s, es[0], true);
      if t.Some? {
        NextInv(s, es[0], true);
        CorrectedNext(s, es[0]);
        CorrectedRun(t.value, es[1..]);
      }
    }
  }

  /** The corrected wizard's reachable states are clean and covered. */
  lemma CorrectedReachable(es: seq<Event>)
    ensures Run(Init, es, true).Some? ==>
      var t := Run(Init, es, true).value; Inv(t) && Clean(t) && Covered(t)
  {
    CorrectedRun(Init, es);
  }

  /** Every string the draft would submit is within the schema's upper bounds. */
  predicate ShortEnough(s: State)
  {
    && Utf16Length(s.form.householdName) <= 50
    && (forall i :: 0 <= i < |s.form.areas| ==> Utf16Length(s.form.areas[i].0) <= 50)
    && (forall i, x :: 0 <= i < |s.form.areas| && x in s.form.areas[i].1 ==> Utf16Length(x) <= 50)
    && (forall i :: 0 <= i < |s.form.chores| ==> Utf16Length(s.form.chores[i].name) <= 50)
    && (forall i :: 0 <= i < |s.form.chores| && s.form.chores[i].description.Some? ==>
          Utf16Length(s.form.chores[i].description.value) <= 255)
  }

  /**
   * A clean draft at the check step passes the onboarding schema whenever
   * its strings are short enough: the wizard can then only fail validation
   * for over-long input.
   */
  lemma CleanSubmitAccepted(s: State)
    requires Inv(s) && Clean(s) && s.step == CheckStep && ShortEnough(s)
    ensures OnboardingOk(Submit(s))
  {
    var f := Submit(s);
    forall i | 0 <= i < |f.areas| ensures AreaOk(f.areas[i]) {
      KeysAt(f.areas, i);
      assert f.areas[i].0 in Keys(f.areas);
      forall j | 0 <= j < |f.areas[i].1| ensures IsName(f.areas[i].1[j]) {
        assert f.areas[i].1[j] in f.areas[i].1;
      }
    }
  }

  // ------------------------------------------ the wizard as written, by example

  /** A run that passes through the given states, one per event. */
  lemma {:induction false} RunThrough(states: seq<State>, es: seq<Event>, corrected: bool)
    requires |states| == |es| + 1
    requires forall i :: 0 <= i < |es| ==> Next(states[i], es[i], corrected) == Some(states[i + 1])
    ensures Run(states[0], es, corrected) == Some(states[|es|])
    decreases |es|
  {
    if es != [] {
      var rest, later := states[1..], es[1..];
      forall i | 0 <= i < |later| ensures Next(rest[i], later[i], corrected) == Some(rest[i + 1]) {
        assert rest[i] == states[i + 1] && later[i] == es[i + 1] && rest[i + 1] == states[i + 2];
      }
      RunThrough(rest, later, corrected);
      assert Next(states[0], es[0], corrected) == Some(states[1]);
    }
  }

  function Typing(h: string, a: string, c: string): Inputs
  {
    Inputs(h, a, c, "")
  }

  /** "Another area" with no chore typed, then on to the check step. */
  const EmptyChoreTrace: seq<Event> := [
    Type(HouseholdNameInput, "Home"), Click(GoToAreasButton),
    Type(AreaNameInput, "Kitchen"), Click(GoToChoresButton),
    Click(GoToAreasFromChoresButton),
    Type(AreaNameInput, "Bath"), Click(GoToChoresButton),
    Click(GoToCheckButton)]

  /** The states of `EmptyChoreTrace`; `empty` is the chore the returning handler appends, if any. */
  function EmptyChoreStates(empty: seq<DraftChore>, kitchen: seq<string>): seq<State>
  {
    var f := FormValues("Home", [], []);
    var g := FormValues("Home", [("Kitchen", kitchen)], empty);
    [ Init,
      Init.(inputs := Typing("Home", "", "")),
      State(AreasStep, Typing("Home", "", ""), [], f),
      State(AreasStep, Typing("Home", "Kitchen", ""), [], f),
      State(ChoresStep, Typing("Home", "Kitchen", ""), [], f.(areas := [("Kitchen", [])])),
      State(AreasStep, Typing("Home", "", ""), [], g),
      State(AreasStep, Typing("Home", "Bath", ""), [], g),
      State(ChoresStep, Typing("Home", "Bath", ""), [], g.(areas := g.areas + [("Bath", [])])),
      State(CheckStep, Typing("Home", "", ""), [], g.(areas := g.areas + [("Bath", [])])) ]
  }

  lemma EmptyChoreLeaveKitchen(corrected: bool)
    ensures var ss := if corrected then EmptyChoreStates([], []) else EmptyChoreStates([DraftChore("", Some(""))], [""]);
      Next(ss[4], EmptyChoreTrace[4], corrected) == Some(ss[5])
  {
    var ss := if corrected then EmptyChoreStates([], []) else EmptyChoreStates([DraftChore("", Some(""))], [""]);
    var kitchen: Rec<seq<string>> := [("Kitchen", [])];
    assert kitchen[1..] == [];
    assert Put(kitchen, "Kitchen", [""]) == [("Kitchen", [""])];
    assert Get(kitchen, "Kitchen") == Some([]);
    if !corrected {
      assert [] + [""] == [""];
      assert Extend(kitchen, "Kitchen", [""]) == [("Kitchen", [""])];
    }
    var t := if corrected then GoToAreasFromChoresCorrected(ss[4]) else GoToAreasFromChores(ss[4]);
    assert t.form.chores == ss[5].form.chores;
    assert t.form.areas == ss[5].form.areas;
    assert t == ss[5];
  }

  lemma EmptyChoreToCheck(corrected: bool)
    ensures var ss := if corrected then EmptyChoreStates([], []) else EmptyChoreStates([DraftChore("", Some(""))], [""]);
      Next(ss[7], EmptyChoreTrace[7], corrected) == Some(ss[8])
  {
    var ss := if corrected then EmptyChoreStates([], []) else EmptyChoreStates([DraftChore("", Some(""))], [""]);
    assert Keys(ss[7].form.areas) == ["Kitchen", "Bath"];
    assert GoToCheck(ss[7]).form.areas == ss[8].form.areas;
    assert GoToCheck(ss[7]).form.chores == ss[8].form.chores;
    assert GoToCheck(ss[7]) == ss[8];
  }

  lemma EmptyChoreOpening(corrected: bool)
    ensures var ss := if corrected then EmptyChoreStates([], []) else EmptyChoreStates([DraftChore("", Some(""))], [""]);
      forall i :: 0 <= i < 4 ==> Next(ss[i], EmptyChoreTrace[i], corrected) == Some(ss[i + 1])
  {
    var ss := if corrected then EmptyChoreStates([], []) else EmptyChoreStates([DraftChore("", Some(""))], [""]);
    var es := EmptyChoreTrace;
    forall i | 0 <= i < 4 ensures Next(ss[i], es[i], corrected) == Some(ss[i + 1]) {
      if i == 0 {
        assert Next(ss[0], es[0], corrected) == Some(ss[1]);
      } else if i == 1 {
        assert Next(ss[1], es[1], corrected) == Some(ss[2]);
      } else if i == 2 {
        assert Next(ss[2], es[2], corrected) == Some(ss[3]);
      } else if i == 3 {
        assert Next(ss[3], es[3], corrected) == Some(ss[4]);
      }
    }
  }

  lemma EmptyChoreBath(corrected: bool)
    ensures var ss := if corrected then EmptyChoreStates([], []) else EmptyChoreStates([DraftChore("", Some(""))], [""]);
      forall i :: 4 <= i < 7 ==> Next(ss[i], EmptyChoreTrace[i], corrected) == Some(ss[i + 1])
  {
    var ss := if corrected then EmptyChoreStates([], []) else EmptyChoreStates([DraftChore("", Some(""))], [""]);
    var es := EmptyChoreTrace;
    EmptyChoreLeaveKitchen(corrected);
    forall i | 4 <= i < 7 ensures Next(ss[i], es[i], corrected) == Some(ss[i + 1]) {
      if i == 4 {
        assert Next(ss[4], es[4], corrected) == Some(ss[5]);
      } else if i == 5 {
        assert Next(ss[5], es[5], corrected) == Some(ss[6]);
      } else if i == 6 {
        assert Keys(ss[6].form.areas) == ["Kitchen"];
        assert Next(ss[6], es[6], corrected) == Some(ss[7]);
      }
    }
  }

  lemma EmptyChoreSteps(corrected: bool)
    ensures Run(Init, EmptyChoreTrace, corrected) == Some(if corrected then EmptyChoreFinalCorrected else EmptyChoreFinal)
  {
    var ss := if corrected then EmptyChoreStates([], []) else EmptyChoreStates([DraftChore("", Some(""))], [""]);
    EmptyChoreOpening(corrected);
    EmptyChoreBath(corrected);
    EmptyChoreToCheck(corrected);
    assert ss[8] == if corrected then EmptyChoreFinalCorrected else EmptyChoreFinal;
    assert forall i :: 0 <= i < |EmptyChoreTrace| ==> Next(ss[i], EmptyChoreTrace[i], corrected) == Some(ss[i + 1]);
    RunThrough(ss, EmptyChoreTrace, corrected);
  }

  /** The state the as-written wizard ends in after `EmptyChoreTrace`. */
  const EmptyChoreFinal := State(CheckStep, Typing("Home", "", ""), [],
    FormValues("Home", [("Kitchen", [""]), ("Bath", [])], [DraftChore("", Some(""))]))

  /** The state the corrected wizard ends in after `EmptyChoreTrace`. */
  const EmptyChoreFinalCorrected := State(CheckStep, Typing("Home", "", ""), [],
    FormValues("Home", [("Kitchen", []), ("Bath", [])], []))

  lemma EmptyChoreFinalRejected()
    ensures ReportedAt(OnboardingIssues(Submit(EmptyChoreFinal)), ChoreFieldPath(0, NameField))
    ensures !OnboardingOk(Submit(EmptyChoreFinal))
  {
    assert Submit(EmptyChoreFinal).chores[0].name == Some("");
    ChoreFieldReported(Submit(EmptyChoreFinal), 0);
  }

  /**
   * As written, that trace submits a chore with an empty name and an
   * empty name under "Kitchen", which the schema rejects.
   */
  lemma EmptyChoreRejected()
    ensures Run(Init, EmptyChoreTrace, false) == Some(EmptyChoreFinal)
    ensures ReportedAt(OnboardingIssues(Submit(EmptyChoreFinal)), ChoreFieldPath(0, NameField))
    ensures !OnboardingOk(Submit(EmptyChoreFinal))
  {
    EmptyChoreSteps(false);
    EmptyChoreFinalRejected();
  }

  /** The corrected wizard flushes nothing on the same trace, and the draft is accepted. */
  lemma EmptyChoreCorrected()
    ensures Run(Init, EmptyChoreTrace, true) == Some(EmptyChoreFinalCorrected)
    ensures OnboardingOk(Submit(EmptyChoreFinalCorrected))
  {
    EmptyChoreSteps(true);
    CorrectedReachable(EmptyChoreTrace);
    CleanSubmitAccepted(EmptyChoreFinalCorrected);
  }

  /** A chore typed before "Another area", then a chore added with "Another chore" in the next area. */
  const DroppedChoreTrace: seq<Event> := [
    Type(HouseholdNameInput, "Home"), Click(GoToAreasButton),
    Type(AreaNameInput, "Kitchen"), Click(GoToChoresButton),
    Type(ChoreNameInput, "Dust"), Click(GoToAreasFromChoresButton),
    Type(AreaNameInput, "Bath"), Click(GoToChoresButton),
    Type(ChoreNameInput, "Mop"), Click(AddAnotherChoreButton),
    Click(GoToCheckButton)]

  /** The states of `DroppedChoreTrace`; `dust` is how the handler leaving "Kitchen" stores "Dust". */
  function DroppedChoreStates(dust: DraftChore, corrected: bool): seq<State>
  {
    var f := FormValues("Home", [], []);
    var k := [("Kitchen", ["Dust"])];
    var g := FormValues("Home", k, [dust]);
    var b := k + [("Bath", ["Mop"])];
    var mop := DraftChore("Mop", Some(""));
    var h := FormValues("Home", b, if corrected then [dust, mop] else [mop]);
    [ Init,
      Init.(inputs := Typing("Home", "", "")),
      State(AreasStep, Typing("Home", "", ""), [], f),
      State(AreasStep, Typing("Home", "Kitchen", ""), [], f),
      State(ChoresStep, Typing("Home", "Kitchen", ""), [], f.(areas := [("Kitchen", [])])),
      State(ChoresStep, Typing("Home", "Kitchen", "Dust"), [], f.(areas := [("Kitchen", [])])),
      State(AreasStep, Typing("Home", "", ""), [], g),
      State(AreasStep, Typing("Home", "Bath", ""), [], g),
      State(ChoresStep, Typing("Home", "Bath", ""), [], g.(areas := k + [("Bath", [])])),
      State(ChoresStep, Typing("Home", "Bath", "Mop"), [], g.(areas := k + [("Bath", [])])),
      State(ChoresStep, Typing("Home", "Bath", ""), [ReviewChore("Mop", "")], h),
      State(CheckStep, Typing("Home", "", ""), [ReviewChore("Mop", "")], h) ]
  }

  lemma DroppedChoreLeaveKitchen(corrected: bool)
    ensures var ss := DroppedChoreStates(if corrected then DraftChore("Dust", None) else DraftChore("Dust", Some("")), corrected);
      Next(ss[5], DroppedChoreTrace[5], corrected) == Some(ss[6])
  {
    var ss := DroppedChoreStates(if corrected then DraftChore("Dust", None) else DraftChore("Dust", Some("")), corrected);
    var kitchen: Rec<seq<string>> := [("Kitchen", [])];
    assert kitchen[1..] == [];
    assert Get(kitchen, "Kitchen") == Some([]);
    assert [] + ["Dust"] == ["Dust"];
    assert Put(kitchen, "Kitchen", ["Dust"]) == [("Kitchen", ["Dust"])];
    assert Extend(kitchen, "Kitchen", ["Dust"]) == [("Kitchen", ["Dust"])];
    var t := if corrected then GoToAreasFromChoresCorrected(ss[5]) else GoToAreasFromChores(ss[5]);
    assert t.form.chores == ss[6].form.chores;
    assert t == ss[6];
  }

  lemma BathGetsMop()
    ensures var both: Rec<seq<string>> := [("Kitchen", ["Dust"]), ("Bath", [])];
      && Keys(both) == ["Kitchen", "Bath"]
      && Extend(both, "Bath", ["Mop"]) == [("Kitchen", ["Dust"]), ("Bath", ["Mop"])]
  {
    var both: Rec<seq<string>> := [("Kitchen", ["Dust"]), ("Bath", [])];
    assert both[1..] == [("Bath", [])] && both[1..][1..] == [];
    assert Keys(both) == ["Kitchen", "Bath"];
    assert Get(both, "Bath") == Some([]);
    assert [] + ["Mop"] == ["Mop"];
    assert Put(both, "Bath", ["Mop"]) == [("Kitchen", ["Dust"]), ("Bath", ["Mop"])];
  }

  lemma DroppedChoreAddMop(corrected: bool)
    ensures var ss := DroppedChoreStates(if corrected then DraftChore("Dust", None) else DraftChore("Dust", Some("")), corrected);
      Next(ss[9], DroppedChoreTrace[9], corrected) == Some(ss[10])
  {
    if corrected {
      MopAddedCorrected();
    } else {
      MopAddedAsWritten();
    }
  }

  lemma MopAddedAsWritten()
    ensures var ss := DroppedChoreStates(DraftChore("Dust", Some("")), false);
      Next(ss[9], DroppedChoreTrace[9], false) == Some(ss[10])
  {
    var ss := DroppedChoreStates(DraftChore("Dust", Some("")), false);
    BathGetsMop();
    var t := AddAnotherChore(ss[9]);
    assert |t.form.chores| == 1;
    assert t.form.chores == ss[10].form.chores;
    assert t == ss[10];
  }

  lemma MopAddedCorrected()
    ensures var ss := DroppedChoreStates(DraftChore("Dust", None), true);
      Next(ss[9], DroppedChoreTrace[9], true) == Some(ss[10])
  {
    var ss := DroppedChoreStates(DraftChore("Dust", None), true);
    BathGetsMop();
    var t := AddAnotherChoreCorrected(ss[9]);
    assert t.form.chores == ss[10].form.chores;
    assert t == ss[10];
  }

  lemma DroppedChoreOpening(corrected: bool)
    ensures var ss := DroppedChoreStates(if corrected then DraftChore("Dust", None) else DraftChore("Dust", Some("")), corrected);
      forall i :: 0 <= i < 4 ==> Next(ss[i], DroppedChoreTrace[i], corrected) == Some(ss[i + 1])
  {
    var ss := DroppedChoreStates(if corrected then DraftChore("Dust", None) else DraftChore("Dust", Some("")), corrected);
    var es := DroppedChoreTrace;
    forall i | 0 <= i < 4 ensures Next(ss[i], es[i], corrected) == Some(ss[i + 1]) {
      if i == 0 {
        assert Next(ss[0], es[0], corrected) == Some(ss[1]);
      } else if i == 1 {
        assert Next(ss[1], es[1], corrected) == Some(ss[2]);
      } else if i == 2 {
        assert Next(ss[2], es[2], corrected) == Some(ss[3]);
      } else if i == 3 {
        assert Next(ss[3], es[3], corrected) == Some(ss[4]);
      }
    }
  }

  lemma DroppedChoreKitchen(corrected: bool)
    ensures var ss := DroppedChoreStates(if corrected then DraftChore("Dust", None) else DraftChore("Dust", Some("")), corrected);
      forall i :: 4 <= i < 6 ==> Next(ss[i], DroppedChoreTrace[i], corrected) == Some(ss[i + 1])
  {
    var ss := DroppedChoreStates(if corrected then DraftChore("Dust", None) else DraftChore("Dust", Some("")), corrected);
    var es := DroppedChoreTrace;
    DroppedChoreLeaveKitchen(corrected);
    forall i | 4 <= i < 6 ensures Next(ss[i], es[i], corrected) == Some(ss[i + 1]) {
      if i == 4 {
        assert Next(ss[4], es[4], corrected) == Some(ss[5]);
      } else if i == 5 {
        assert Next(ss[5], es[5], corrected) == Some(ss[6]);
      }
    }
  }

  lemma DroppedChoreBath(corrected: bool)
    ensures var ss := DroppedChoreStates(if corrected then DraftChore("Dust", None) else DraftChore("Dust", Some("")), corrected);
      forall i :: 6 <= i < 9 ==> Next(ss[i], DroppedChoreTrace[i], corrected) == Some(ss[i + 1])
  {
    var ss := DroppedChoreStates(if corrected then DraftChore("Dust", None) else DraftChore("Dust", Some("")), corrected);
    var es := DroppedChoreTrace;
    forall i | 6 <= i < 9 ensures Next(ss[i], es[i], corrected) == Some(ss[i + 1]) {
      if i == 6 {
        assert Next(ss[6], es[6], corrected) == Some(ss[7]);
      } else if i == 7 {
        assert Keys(ss[7].form.areas) == ["Kitchen"];
        assert Next(ss[7], es[7], corrected) == Some(ss[8]);
      } else if i == 8 {
        assert Next(ss[8], es[8], corrected) == Some(ss[9]);
      }
    }
  }

  lemma DroppedChoreClosing(corrected: bool)
    ensures var ss := DroppedChoreStates(if corrected then DraftChore("Dust", None) else DraftChore("Dust", Some("")), corrected);
      forall i :: 9 <= i < 11 ==> Next(ss[i], DroppedChoreTrace[i], corrected) == Some(ss[i + 1])
  {
    var ss := DroppedChoreStates(if corrected then DraftChore("Dust", None) else DraftChore("Dust", Some("")), corrected);
    var es := DroppedChoreTrace;
    DroppedChoreAddMop(corrected);
    forall i | 9 <= i < 11 ensures Next(ss[i], es[i], corrected) == Some(ss[i + 1]) {
      if i == 9 {
        assert Next(ss[9], es[9], corrected) == Some(ss[10]);
      } else if i == 10 {
        assert Keys(ss[10].form.areas) == ["Kitchen", "Bath"];
        assert Next(ss[10], es[10], corrected) == Some(ss[11]);
      }
    }
  }

  lemma DroppedChoreSteps(corrected: bool)
    ensures Run(Init, DroppedChoreTrace, corrected) == Some(if corrected then DroppedChoreFinalCorrected else DroppedChoreFinal)
  {
    var ss := DroppedChoreStates(if corrected then DraftChore("Dust", None) else DraftChore("Dust", Some("")), corrected);
    DroppedChoreOpening(corrected);
    DroppedChoreKitchen(corrected);
    DroppedChoreBath(corrected);
    DroppedChoreClosing(corrected);
    assert ss[11] == if corrected then DroppedChoreFinalCorrected else DroppedChoreFinal;
    assert forall i :: 0 <= i < |DroppedChoreTrace| ==> Next(ss[i], DroppedChoreTrace[i], corrected) == Some(ss[i + 1]);
    RunThrough(ss, DroppedChoreTrace, corrected);
  }

  /** The state the as-written wizard ends in after `DroppedChoreTrace`. */
  const DroppedChoreFinal := State(CheckStep, Typing("Home", "", ""), [ReviewChore("Mop", "")],
    FormValues("Home", [("Kitchen", ["Dust"]), ("Bath", ["Mop"])], [DraftChore("Mop", Some(""))]))

  /** The state the corrected wizard ends in after `DroppedChoreTrace`. */
  const DroppedChoreFinalCorrected := State(CheckStep, Typing("Home", "", ""), [ReviewChore("Mop", "")],
    FormValues("Home", [("Kitchen", ["Dust"]), ("Bath", ["Mop"])], [DraftChore("Dust", None), DraftChore("Mop", Some(""))]))

  lemma DroppedChoreFinalFacts()
    ensures !Covered(DroppedChoreFinal)
    ensures Clean(DroppedChoreFinal) && ShortEnough(DroppedChoreFinal)
  {
    var t := DroppedChoreFinal;
    assert "Dust" in t.form.areas[0].1;
    assert "Mop"[0] != "Dust"[0];
    assert forall c :: c in t.form.chores ==> c == DraftChore("Mop", Some(""));
    assert forall i :: 0 <= i < 2 ==> t.form.areas[i].1 == [["Dust"], ["Mop"]][i];
    DroppedChoreShort();
  }

  lemma DroppedChoreShort()
    ensures ShortEnough(DroppedChoreFinal)
  {
    var f := DroppedChoreFinal.form;
    assert forall i :: 0 <= i < 2 ==> f.areas[i].1 == [["Dust"], ["Mop"]][i];
    assert forall i, x :: 0 <= i < 2 && x in f.areas[i].1 ==> x == "Dust" || x == "Mop";
  }

  /**
   * As written, "Dust" stays listed under "Kitchen" but is no longer a
   * chore of the draft, although the draft passes the schema.
   */
  lemma DroppedChoreAccepted()
    ensures Run(Init, DroppedChoreTrace, false) == Some(DroppedChoreFinal)
    ensures !Covered(DroppedChoreFinal) && OnboardingOk(Submit(DroppedChoreFinal))
  {
    DroppedChoreSteps(false);
    RunInv(Init, DroppedChoreTrace, false);
    DroppedChoreFinalFacts();
    CleanSubmitAccepted(DroppedChoreFinal);
  }

  /** The corrected wizard keeps "Dust" among the draft's chores on the same trace. */
  lemma DroppedChoreCorrected()
    ensures Run(Init, DroppedChoreTrace, true) == Some(DroppedChoreFinalCorrected)
    ensures Covered(DroppedChoreFinalCorrected)
  {
    DroppedChoreSteps(true);
    CorrectedReachable(DroppedChoreTrace);
  }
}
