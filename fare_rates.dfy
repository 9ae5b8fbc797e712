/**
 * The fare-rate editor of the app's admin panel (app/admin-panel.jsx): four
 * passenger roles with a rate text each, a modal that edits one role's rate
 * in a temporary field, and save and cancel.
 */
module FareRates {
  import opened Common

  /** `roles`: the order in which the rates are listed. */
  const Roles: seq<string> := ["PWD", "Senior", "Student", "Regular"]

  /** `initialRates`: the rates as the text the fields show. */
  const InitialRates: map<string, string> := map["PWD" := "10", "Senior" := "12", "Student" := "8", "Regular" := "15"]

  /** A computed key `[editingRole]` with `editingRole` null is the property name "null". */
  function KeyOf(editingRole: Option<string>): string
  {
    if editingRole.Some? then editingRole.value else "null"
  }

  /**
   * `{ ...fareRates, [role]: tempRate }`: the rate of `role` becomes
   * `tempRate`, every other role keeps its rate, and no other role appears.
   */
  function WithRate(rates: map<string, string>, role: string, tempRate: string): (r: map<string, string>)
    ensures role in r && r[role] == tempRate
    ensures r.Keys == rates.Keys + {role}
    ensures forall k :: k in rates && k != role ==> r[k] == rates[k]
  {
    rates[role := tempRate]
  }

  /** Saving a role's own rate back leaves every rate as it was. */
  lemma WithOwnRateUnchanged(rates: map<string, string>, role: string)
    requires role in rates
    ensures WithRate(rates, role, rates[role]) == rates
  {
    var r := WithRate(rates, role, rates[role]);
    assert r.Keys == rates.Keys;
  }

  /** Editing one role twice keeps only the second edit. */
  lemma WithRateTwice(rates: map<string, string>, role: string, first: string, second: string)
    ensures WithRate(WithRate(rates, role, first), role, second) == WithRate(rates, role, second)
  {
  }

  /** Every listed role has an initial rate, and nothing else has. */
  lemma InitialRatesCoverRoles()
    ensures InitialRates.Keys == set r | r in Roles
    ensures InitialRates["PWD"] == "10" && InitialRates["Senior"] == "12"
    ensures InitialRates["Student"] == "8" && InitialRates["Regular"] == "15"
  {
    assert Roles[0] == "PWD" && Roles[1] == "Senior" && Roles[2] == "Student" && Roles[3] == "Regular";
  }

  class FareEditor {
    var fareRates: map<string, string>
    var editingRole: Option<string>
    var tempRate: string

    /** The rates are exactly the four roles' rates. */
    predicate Valid()
      reads this
    {
      fareRates.Keys == InitialRates.Keys
    }

    /** The modal is shown exactly while a role is being edited (`editingRole !== null`). */
    predicate ModalVisible()
      reads this
    {
      editingRole.Some?
    }

    /** The panel opens with the initial rates and no modal. */
    constructor ()
      ensures fareRates == InitialRates && editingRole == None && tempRate == ""
      ensures Valid() && !ModalVisible()
    {
      fareRates := InitialRates;
      editingRole := None;
      tempRate := "";
    }

    /** `openModalForRole`: the modal opens on `role`, its field holding that role's current rate. */
    method OpenModalForRole(role: string)
      requires role in fareRates
      modifies this`editingRole, this`tempRate
      ensures editingRole == Some(role) && tempRate == fareRates[role]
      ensures ModalVisible()
    {
      editingRole := Some(role);
      tempRate := fareRates[role];
    }

    /** Typing in the modal's field. */
    method SetTempRate(text: string)
      modifies this`tempRate
      ensures tempRate == text
    {
      tempRate := text;
    }

    /**
     * `saveModalRate`: the edited role's rate becomes the field's text and
     * every other rate stays; the modal closes and the field is cleared. With
     * no role open the text is stored under "null".
     */
    method SaveModalRate()
      modifies this
      ensures fareRates == WithRate(old(fareRates), KeyOf(old(editingRole)), old(tempRate))
      ensures editingRole == None && tempRate == "" && !ModalVisible()
      ensures old(Valid()) && old(editingRole).Some? && old(editingRole).value in old(fareRates) ==> Valid()
    {
      fareRates := WithRate(fareRates, KeyOf(editingRole), tempRate);
      editingRole := None;
      tempRate := "";
    }

    /** `cancelModal`: the modal closes and the field is cleared; no rate changes. */
    method CancelModal()
      modifies this`editingRole, this`tempRate
      ensures editingRole == None && tempRate == "" && !ModalVisible()
    {
      editingRole := None;
      tempRate := "";
    }
  }

  /** Opening a role and saving without typing leaves every rate as it was. */
  method OpenThenSave(editor: FareEditor, role: string)
    requires role in editor.fareRates
    modifies editor
    ensures editor.fareRates == old(editor.fareRates)
    ensures !editor.ModalVisible()
  {
    editor.OpenModalForRole(role);
    WithOwnRateUnchanged(editor.fareRates, role);
    editor.SaveModalRate();
  }
}
