/** The inspection wizard: an information step (0) followed by one photo
    step per stage of the valve (1 to 7). Leaving step 0 creates the
    inspection record; pressing "next" on the last photo step finalises it
    (component rows, action rows, completion update). The database is not
    modelled: every call becomes a request in the returned log, paired with
    its outcome, which is a parameter. */
module InspectionForm {
  import opened Common
  import opened PhotoUpload

  /** The photo stages, in order; photo step `k` shows stage `k - 1`. */
  const InspectionSteps: seq<Step> := [
    Step("chegada", "Chegada", "Válvula na chegada"),
    Step("desmontada", "Desmontada", "Válvula desmontada"),
    Step("disco", "Disco", "Inspeção do disco"),
    Step("bocal", "Bocal", "Inspeção do bocal"),
    Step("castelo", "Castelo", "Inspeção do castelo"),
    Step("finalizada", "Finalizada", "Válvula montada e finalizada"),
    Step("lacre", "Lacre", "Aplicação do lacre")
  ]

  /** The actions that can be required: the check boxes of the action
      view, the only way an action reaches the list. */
  const Actions: seq<string> := [
    "Limpeza", "Lapidação", "Jato/Pintura", "Manter", "Retirada",
    "Desmontagem/Inspeção", "Limpeza/Lapidação", "Reparo", "Calibração", "Montagem"
  ]

  /** Every photo stage of the wizard has its own entry in the guideline
      table, so the panel never falls back to the generic instruction. */
  lemma StepsHaveGuidelines()
    ensures forall i :: 0 <= i < |InspectionSteps| ==>
              GuidelineFor(InspectionSteps[i]) == StepGuidelines[InspectionSteps[i].id]
  {
  }

  // ---------------------------------------------------------------------
  // Step counter

  /** The step `handleNext` leaves the wizard at. `created` says whether
      `createInspection` returned a (truthy) id; it is consulted only at
      step 0. Below the number of photo stages the step goes up by one;
      at the last photo step it stays, since the press finalises. */
  function NextStep(step: nat, created: bool): nat {
    if step == 0 && !created then 0
    else if step < |InspectionSteps| then step + 1
    else step
  }

  /** The step after a run of "next" presses from a fresh wizard, each
      press saying whether creating the inspection would succeed. */
  function StepAfter(presses: seq<bool>): nat {
    if presses == [] then 0
    else NextStep(StepAfter(presses[..|presses| - 1]), presses[|presses| - 1])
  }

  /** The wizard's views by step: the information form at 0, the photo
      panel at 1 to 7 once an id exists, and the component/action view at
      8. */
  predicate PhotoPanelShown(step: nat, inspectionId: Option<string>) {
    step > 0 && step <= |InspectionSteps| && PresentAndTruthy(inspectionId)
  }

  predicate ComponentsViewShown(step: nat) {
    step == |InspectionSteps| + 1
  }

  /** `handleNext` never lowers the step, raises it by at most one, and
      never takes it past the last photo step. */
  lemma NextStepBounds(step: nat, created: bool)
    requires step <= |InspectionSteps|
    ensures step <= NextStep(step, created) <= step + 1
    ensures NextStep(step, created) <= |InspectionSteps|
    ensures NextStep(step, created) == step <==> (step == 0 && !created) || step == |InspectionSteps|
  {
  }

  /** Whatever the presses and outcomes, the step stays within 0..7: the
      component/action view, which needs step 8, is never shown. */
  lemma {:induction false} ComponentsViewUnreachable(presses: seq<bool>)
    ensures StepAfter(presses) <= |InspectionSteps|
    ensures !ComponentsViewShown(StepAfter(presses))
  {
    if presses != [] {
      ComponentsViewUnreachable(presses[..|presses| - 1]);
    }
  }

  /** With every creation succeeding, `k` presses reach photo step `k`, up
      to the last; from then on each press finalises. */
  lemma {:induction false} SuccessfulPresses(presses: seq<bool>)
    requires forall i :: 0 <= i < |presses| ==> presses[i]
    ensures StepAfter(presses) == if |presses| < |InspectionSteps| then |presses| else |InspectionSteps|
  {
    if presses != [] {
      SuccessfulPresses(presses[..|presses| - 1]);
    }
  }

  // ---------------------------------------------------------------------
  // Component records and required actions, as the client edits them

  /** A component record: field name to text, as the form holds it. */
  type Component = map<string, string>

  const ComponentFields: set<string> :=
    {"componente", "condicao", "codigo_condicao", "observacao", "novo_codigo_material", "nova_corrida", "age"}

  const EmptyComponent: Component := map[
    "componente" := "", "condicao" := "", "codigo_condicao" := "", "observacao" := "",
    "novo_codigo_material" := "", "nova_corrida" := "", "age" := ""
  ]

  /** `addComponent`: one more record, with all seven fields empty, after
      the existing ones. */
  function WithNewComponent(cs: seq<Component>): (r: seq<Component>)
    ensures |r| == |cs| + 1 && r[..|cs|] == cs
    ensures r[|cs|].Keys == ComponentFields
    ensures forall f :: f in r[|cs|] ==> r[|cs|][f] == ""
  {
    cs + [EmptyComponent]
  }

  /** `updateComponent`: one field of one record takes the new value;
      every other field of that record and every other record is kept. */
  function WithComponentField(cs: seq<Component>, index: nat, field: string, value: string): (r: seq<Component>)
    requires index < |cs|
    ensures |r| == |cs|
    ensures forall i :: 0 <= i < |cs| && i != index ==> r[i] == cs[i]
    ensures r[index].Keys == cs[index].Keys + {field} && r[index][field] == value
    ensures forall f :: f in cs[index] && f != field ==> r[index][f] == cs[index][f]
  {
    cs[index := cs[index][field := value]]
  }

  /** `components.filter((_, i) => i !== index)`. */
  function WithoutIndex<T>(cs: seq<T>, index: int): (r: seq<T>)
    ensures 0 <= index < |cs| ==> r == cs[..index] + cs[index + 1..]
    ensures !(0 <= index < |cs|) ==> r == cs
  {
    if cs == [] then []
    else
      var rest := WithoutIndex(cs[1..], index - 1);
      if index == 0 then rest
      else
        assert 0 < index < |cs| ==> [cs[0]] + cs[1..][..index - 1] == cs[..index];
        [cs[0]] + rest
  }

  /** `prev.filter(a => a !== action)`. */
  function Without(s: seq<string>, a: string): (r: seq<string>)
    ensures a !in r
    ensures forall b :: b in r <==> b in s && b != a
    ensures NoDuplicates(s) ==> NoDuplicates(r)
  {
    if s == [] then []
    else
      var rest := Without(s[1..], a);
      if s[0] == a then rest
      else
        assert NoDuplicates(s) ==> s[0] !in s[1..];
        [s[0]] + rest
  }

  /** `toggleAction`: drop the action when it is listed, append it
      otherwise. Only its membership flips. */
  function Toggled(actions: seq<string>, a: string): (r: seq<string>)
    ensures a in r <==> a !in actions
    ensures forall b :: b != a ==> (b in r <==> b in actions)
  {
    if a in actions then Without(actions, a) else actions + [a]
  }

  /** The action list behaves as a set: toggling keeps it free of
      duplicates. */
  lemma ToggledNoDuplicates(actions: seq<string>, a: string)
    requires NoDuplicates(actions)
    ensures NoDuplicates(Toggled(actions, a))
  {
  }

  /** Removing an action that is not listed changes nothing. */
  lemma {:induction false} WithoutAbsent(s: seq<string>, a: string)
    requires a !in s
    ensures Without(s, a) == s
  {
    if s != [] {
      WithoutAbsent(s[1..], a);
      assert [s[0]] + s[1..] == s;
    }
  }

  /** Toggling the same action twice restores membership; for an action
      that was not listed it restores the list itself. */
  lemma ToggleTwice(actions: seq<string>, a: string)
    ensures forall b :: b in Toggled(Toggled(actions, a), a) <==> b in actions
    ensures a !in actions ==> Toggled(Toggled(actions, a), a) == actions
  {
    if a !in actions {
      var t := actions + [a];
      assert Toggled(actions, a) == t;
      assert t[..|actions|] == actions;
      WithoutAppend(actions, a);
    }
  }

  /** Dropping an action from a list that ends with it, and nowhere else,
      leaves the list before it. */
  lemma {:induction false} WithoutAppend(s: seq<string>, a: string)
    requires a !in s
    ensures Without(s + [a], a) == s
  {
    if s == [] {
      assert [] + [a] == [a];
    } else {
      assert (s + [a])[0] == s[0];
      assert (s + [a])[1..] == s[1..] + [a];
      WithoutAppend(s[1..], a);
      assert [s[0]] + s[1..] == s;
    }
  }

  // ---------------------------------------------------------------------
  // Rows sent to the database

  /** The information form as it stands when "next" is pressed. The CDTP
      is given already parsed (`None` for an unparsable entry). */
  datatype FormData = FormData(
    kind: string,
    observations: string,
    instruments: string,
    cdtp: Option<real>,
    fluid: string,
    sealCode: string,
    jointIntegrityTest: bool,
    leakTest: bool,
    vrSeal: bool,
    bubblesPerMinute: string)

  datatype InspectionRow = InspectionRow(
    valveId: string,
    technicianId: string,
    kind: string,
    observations: string,
    instruments: string,
    cdtp: Option<real>,
    fluid: string,
    sealCode: string,
    jointIntegrityTest: bool,
    leakTest: bool,
    vrSeal: bool)

  /** `parseFloat(cdtp) || null`: a zero or unparsable CDTP is stored as
      `null`. */
  function StoredCdtp(parsed: Option<real>): (r: Option<real>)
    ensures r.Some? <==> parsed.Some? && parsed.value != 0.0
    ensures r.Some? ==> r.value == parsed.value
  {
    if parsed.Some? && parsed.value != 0.0 then parsed else None
  }

  /** The row `createInspection` inserts. The bubbles-per-minute entry is
      not part of it. */
  function InspectionRowOf(valveId: string, technicianId: string, form: FormData): InspectionRow {
    InspectionRow(valveId, technicianId, form.kind, form.observations, form.instruments,
                  StoredCdtp(form.cdtp), form.fluid, form.sealCode,
                  form.jointIntegrityTest, form.leakTest, form.vrSeal)
  }

  /** `{ inspecao_id, ...comp }`: the record's own fields come after the
      id, so a record field named `inspecao_id` would win. */
  function ComponentRow(inspectionId: string, c: Component): map<string, string> {
    map["inspecao_id" := inspectionId] + c
  }

  /** A record whose keys are the seven form fields is saved with exactly
      those fields and the inspection id. */
  lemma ComponentRowCarriesId(inspectionId: string, c: Component)
    requires c.Keys == ComponentFields
    ensures ComponentRow(inspectionId, c).Keys == ComponentFields + {"inspecao_id"}
    ensures ComponentRow(inspectionId, c)["inspecao_id"] == inspectionId
    ensures forall f :: f in c ==> ComponentRow(inspectionId, c)[f] == c[f]
  {
    assert "inspecao_id" !in ComponentFields;
  }

  function ComponentRows(inspectionId: string, cs: seq<Component>): (rows: seq<map<string, string>>)
    ensures |rows| == |cs|
    ensures forall i :: 0 <= i < |cs| ==> rows[i] == ComponentRow(inspectionId, cs[i])
  {
    if cs == [] then [] else [ComponentRow(inspectionId, cs[0])] + ComponentRows(inspectionId, cs[1..])
  }

  datatype ActionRow = ActionRow(inspectionId: string, action: string)

  /** `actions.map(action => ({ inspecao_id, acao: action }))`: one row per
      action, in order, each carrying the inspection id. */
  function ActionRows(inspectionId: string, actions: seq<string>): (rows: seq<ActionRow>)
    ensures |rows| == |actions|
    ensures forall i :: 0 <= i < |actions| ==> rows[i].inspectionId == inspectionId && rows[i].action == actions[i]
  {
    if actions == [] then [] else [ActionRow(inspectionId, actions[0])] + ActionRows(inspectionId, actions[1..])
  }

  /** A call to the database, as the wizard issues it. */
  datatype Request =
    | InsertInspection(row: InspectionRow)
    | InsertComponents(componentRows: seq<map<string, string>>)
    | InsertActions(actionRows: seq<ActionRow>)
    | CompleteInspection(id: string, completedAt: string, approved: bool)

  /** A request and whether it succeeded. */
  datatype Attempt = Attempt(request: Request, ok: bool)

  /** `finishInspection` for an existing id: the component insert, the
      action insert and the completion update, in that order, each
      attempted whatever became of the ones before. */
  function FinishAttempts(id: string, cs: seq<Component>, actions: seq<string>, now: string,
                          componentsOk: bool, actionsOk: bool, updateOk: bool): seq<Attempt> {
    [ Attempt(InsertComponents(ComponentRows(id, cs)), componentsOk),
      Attempt(InsertActions(ActionRows(id, actions)), actionsOk),
      Attempt(CompleteInspection(id, now, true), updateOk) ]
  }

  /** Finalising is best effort: a failed component or action insert does
      not stop the completion update, which always marks the inspection
      approved; no request undoes an earlier one; and every saved row
      carries the inspection id. */
  lemma FinishIsBestEffort(id: string, cs: seq<Component>, actions: seq<string>, now: string,
                           componentsOk: bool, actionsOk: bool, updateOk: bool)
    requires forall c :: c in cs ==> c.Keys == ComponentFields
    ensures var log := FinishAttempts(id, cs, actions, now, componentsOk, actionsOk, updateOk);
            && |log| == 3
            && log[2] == Attempt(CompleteInspection(id, now, true), updateOk)
            && (forall k :: 0 <= k < |log| ==> !log[k].request.InsertInspection?)
            && |log[0].request.componentRows| == |cs|
            && (forall r :: r in log[0].request.componentRows ==> r["inspecao_id"] == id)
            && |log[1].request.actionRows| == |actions|
            && (forall i :: 0 <= i < |actions| ==> log[1].request.actionRows[i] == ActionRow(id, actions[i]))
  {
    var rows := ComponentRows(id, cs);
    forall r | r in rows ensures r["inspecao_id"] == id {
      var i :| 0 <= i < |rows| && rows[i] == r;
      ComponentRowCarriesId(id, cs[i]);
    }
  }

  // ---------------------------------------------------------------------
  // The wizard

  class Wizard {
    /** The valve's id, or `None` when no valve was given. */
    const valve: Option<string>
    /** The signed-in user's id, or `None` when nobody is signed in. */
    const user: Option<string>
    var step: nat
    var inspectionId: Option<string>
    var components: seq<Component>
    var actions: seq<string>

    /** The step stays within the photo stages, a photo step is only
        reached with an inspection id, the action list holds only offered
        actions and no duplicate, and every component record has the seven
        form fields. */
    ghost predicate Valid()
      reads this
    {
      && step <= |InspectionSteps|
      && (step > 0 ==> PresentAndTruthy(inspectionId))
      && NoDuplicates(actions)
      && (forall a :: a in actions ==> a in Actions)
      && (forall c :: c in components ==> c.Keys == ComponentFields)
    }

    constructor (valve: Option<string>, user: Option<string>)
      ensures Valid()
      ensures this.valve == valve && this.user == user
      ensures step == 0 && inspectionId == None && components == [] && actions == []
    {
      this.valve := valve;
      this.user := user;
      step := 0;
      inspectionId := None;
      components := [];
      actions := [];
    }

    /** `createInspection`: without a valve or a user nothing is sent and
        nothing is returned. Otherwise the inspection row is inserted;
        `inserted` is the new id, or `None` when the insert fails, in which
        case the stored id is left as it was. */
    method CreateInspection(form: FormData, inserted: Option<string>) returns (log: seq<Attempt>, id: Option<string>)
      requires Valid() && step == 0
      modifies this`inspectionId
      ensures Valid()
      ensures valve.None? || user.None? ==> log == [] && id == None && inspectionId == old(inspectionId)
      ensures valve.Some? && user.Some? ==>
                && log == [Attempt(InsertInspection(InspectionRowOf(valve.value, user.value, form)), inserted.Some?)]
                && id == inserted
                && inspectionId == (if inserted.Some? then inserted else old(inspectionId))
    {
      if valve.None? || user.None? {
        return [], None;
      }
      log := [Attempt(InsertInspection(InspectionRowOf(valve.value, user.value, form)), inserted.Some?)];
      id := inserted;
      if inserted.Some? {
        inspectionId := inserted;
      }
    }

    /** `finishInspection`: without an id nothing happens; otherwise the
        three requests of `FinishAttempts` go out, and the wizard is closed
        exactly when the completion update succeeds. */
    method FinishInspection(now: string, componentsOk: bool, actionsOk: bool, updateOk: bool)
      returns (log: seq<Attempt>, closed: bool)
      ensures !PresentAndTruthy(inspectionId) ==> log == [] && !closed
      ensures PresentAndTruthy(inspectionId) ==>
                log == FinishAttempts(inspectionId.value, components, actions, now, componentsOk, actionsOk, updateOk)
                && closed == updateOk
    {
      if !PresentAndTruthy(inspectionId) {
        return [], false;
      }
      log := FinishAttempts(inspectionId.value, components, actions, now, componentsOk, actionsOk, updateOk);
      closed := updateOk;
    }

    /** `handleNext`: at step 0 the inspection is created first, and the
        step stays at 0 unless a truthy id came back; below the last photo
        step the step then goes up by one; at the last photo step the
        inspection is finalised instead. */
    method HandleNext(form: FormData, inserted: Option<string>, now: string,
                      componentsOk: bool, actionsOk: bool, updateOk: bool)
      returns (log: seq<Attempt>, closed: bool)
      requires Valid()
      modifies this`step, this`inspectionId
      ensures Valid()
      ensures old(step) == 0 ==>
                && (valve.None? || user.None? ==> log == [] && inspectionId == old(inspectionId))
                && (valve.Some? && user.Some? ==>
                      && log == [Attempt(InsertInspection(InspectionRowOf(valve.value, user.value, form)), inserted.Some?)]
                      && inspectionId == (if inserted.Some? then inserted else old(inspectionId)))
                && step == NextStep(0, valve.Some? && user.Some? && PresentAndTruthy(inserted))
                && !closed
      ensures 0 < old(step) < |InspectionSteps| ==>
                step == old(step) + 1 && log == [] && !closed && inspectionId == old(inspectionId)
      ensures old(step) == |InspectionSteps| ==>
                && step == old(step) && inspectionId == old(inspectionId)
                && log == FinishAttempts(inspectionId.value, components, actions, now, componentsOk, actionsOk, updateOk)
                && closed == updateOk
      ensures old(step) > 0 ==> step == NextStep(old(step), true)
    {
      closed := false;
      log := [];
      if step == 0 {
        var id;
        log, id := CreateInspection(form, inserted);
        if !PresentAndTruthy(id) {
          return;
        }
      }
      if step < |InspectionSteps| {
        step := step + 1;
      } else {
        log, closed := FinishInspection(now, componentsOk, actionsOk, updateOk);
      }
    }

    method AddComponent()
      requires Valid()
      modifies this`components
      ensures Valid()
      ensures components == WithNewComponent(old(components))
    {
      components := WithNewComponent(components);
    }

    /** The form only ever names one of the seven fields, at the index of a
        record it shows. */
    method UpdateComponent(index: nat, field: string, value: string)
      requires Valid()
      requires index < |components| && field in ComponentFields
      modifies this`components
      ensures Valid()
      ensures components == WithComponentField(old(components), index, field, value)
    {
      components := WithComponentField(components, index, field, value);
    }

    method RemoveComponent(index: int)
      requires Valid()
      modifies this`components
      ensures Valid()
      ensures components == WithoutIndex(old(components), index)
    {
      components := WithoutIndex(components, index);
    }

    /** Called from the check box of an action of `Actions`. */
    method ToggleAction(action: string)
      requires Valid()
      requires action in Actions
      modifies this`actions
      ensures Valid()
      ensures actions == Toggled(old(actions), action)
    {
      ToggledNoDuplicates(actions, action);
      actions := Toggled(actions, action);
    }

    /** In every state the wizard can be in, the photo panel is shown
        exactly on steps 1 to 7 and the component/action view never. */
    lemma ViewsOfValidState()
      requires Valid()
      ensures PhotoPanelShown(step, inspectionId) <==> 1 <= step <= |InspectionSteps|
      ensures !ComponentsViewShown(step)
    {
    }
  }

  // ---------------------------------------------------------------------
  // The wizard driven by its "next" button alone

  /** One press of "next", with the outcomes of the requests it may make. */
  datatype Press = Press(form: FormData, inserted: Option<string>, now: string,
                         componentsOk: bool, actionsOk: bool, updateOk: bool)

  /** Whether each press would see a truthy id come back from
      `createInspection`, as `NextStep` consults it at step 0. */
  function Created(valve: Option<string>, user: Option<string>, presses: seq<Press>): (r: seq<bool>)
    ensures |r| == |presses|
    ensures forall i :: 0 <= i < |presses| ==>
              (r[i] <==> valve.Some? && user.Some? && PresentAndTruthy(presses[i].inserted))
  {
    seq(|presses|, i requires 0 <= i < |presses| =>
      valve.Some? && user.Some? && PresentAndTruthy(presses[i].inserted))
  }

  /** A log that saves no component row and no action row. */
  predicate SendsNoRows(log: seq<Attempt>) {
    forall a :: a in log ==>
      (a.request.InsertComponents? ==> a.request.componentRows == []) &&
      (a.request.InsertActions? ==> a.request.actionRows == [])
  }

  /** A fresh wizard on which only "next" is pressed: it follows
      `StepAfter`, and whenever a press finalises, the component and action
      inserts it sends are empty, since the view that edits those lists is
      never shown. */
  method PressNextOnly(valve: Option<string>, user: Option<string>, presses: seq<Press>)
    returns (logs: seq<seq<Attempt>>, finalStep: nat)
    ensures |logs| == |presses|
    ensures finalStep == StepAfter(Created(valve, user, presses))
    ensures forall k :: 0 <= k < |logs| ==> SendsNoRows(logs[k])
  {
    var w := new Wizard(valve, user);
    logs := [];
    var i := 0;
    while i < |presses|
      invariant 0 <= i <= |presses|
      invariant w.Valid() && w.valve == valve && w.user == user
      invariant w.components == [] && w.actions == []
      invariant w.step == StepAfter(Created(valve, user, presses[..i]))
      invariant |logs| == i
      invariant forall k :: 0 <= k < i ==> SendsNoRows(logs[k])
    {
      var p := presses[i];
      assert Created(valve, user, presses[..i + 1])[..i] == Created(valve, user, presses[..i]);
      var log, _ := w.HandleNext(p.form, p.inserted, p.now, p.componentsOk, p.actionsOk, p.updateOk);
      logs := logs + [log];
      i := i + 1;
    }
    assert presses[..i] == presses;
    finalStep := w.step;
  }
}
