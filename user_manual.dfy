/**
 * The mobile app's help menu (mobileapp/app/user-manual.jsx): which of the
 * three manuals a role may open, and where each button leads.
 */
module UserManual {
  import opened Common

  /** An entry of `availableManuals`: the button text (`label`) and the manual's role. */
  datatype Manual = Manual(title: string, role: string)

  const UserManualEntry: Manual := Manual("User Manual", "user")
  const InspectorManualEntry: Manual := Manual("Inspector Manual", "inspector")
  const AdminManualEntry: Manual := Manual("Admin Manual", "admin")

  const AvailableManuals: seq<Manual> := [UserManualEntry, InspectorManualEntry, AdminManualEntry]

  /**
   * The `filter` predicate: an admin sees everything, an inspector the user
   * and inspector manuals, every other role (a missing one included) only
   * the user manual.
   */
  predicate Visible(role: Option<string>, m: Manual)
  {
    if role == Some("admin") then true
    else if role == Some("inspector") then m.role == "user" || m.role == "inspector"
    else m.role == "user"
  }

  /** `manualsToShow`: the visible manuals, in the order of `availableManuals`. */
  function ManualsToShow(role: Option<string>): (r: seq<Manual>)
    ensures forall i :: 0 <= i < |r| ==> r[i] in AvailableManuals && Visible(role, r[i])
    ensures forall i :: 0 <= i < |AvailableManuals| && Visible(role, AvailableManuals[i]) ==> AvailableManuals[i] in r
    ensures IsSubsequence(r, AvailableManuals)
  {
    Filter(AvailableManuals, m => Visible(role, m))
  }

  /** An admin sees all three manuals. */
  lemma AdminSeesAll()
    ensures ManualsToShow(Some("admin")) == AvailableManuals
  {
    FilterAll(AvailableManuals, m => Visible(Some("admin"), m));
  }

  /** An inspector sees the user and inspector manuals, in that order, and not the admin manual. */
  lemma InspectorSeesTwo()
    ensures ManualsToShow(Some("inspector")) == [UserManualEntry, InspectorManualEntry]
    ensures AdminManualEntry !in ManualsToShow(Some("inspector"))
  {
    var keep := m => Visible(Some("inspector"), m);
    assert AvailableManuals[1..][1..][1..] == [];
    assert Filter(AvailableManuals[1..][1..], keep) == [];
    assert Filter(AvailableManuals[1..], keep) == [InspectorManualEntry];
  }

  /** Any other role, a missing one included, sees the user manual only. */
  lemma OtherRolesSeeUserManualOnly(role: Option<string>)
    requires role != Some("admin") && role != Some("inspector")
    ensures ManualsToShow(role) == [UserManualEntry]
  {
    var keep := m => Visible(role, m);
    assert AvailableManuals[1..][1..][1..] == [];
    assert Filter(AvailableManuals[1..][1..], keep) == [];
    assert Filter(AvailableManuals[1..], keep) == [];
  }

  /** Whatever the role, the user manual is listed, and it comes first. */
  lemma UserManualAlwaysFirst(role: Option<string>)
    ensures |ManualsToShow(role)| > 0 && ManualsToShow(role)[0] == UserManualEntry
  {
    if role == Some("admin") {
      AdminSeesAll();
    } else if role == Some("inspector") {
      InspectorSeesTwo();
    } else {
      OtherRolesSeeUserManualOnly(role);
    }
  }

  /**
   * Visibility is nested: what any role sees an inspector sees too, unless it
   * is the admin manual, and an admin sees everything any role sees.
   */
  lemma VisibilityNested(role: Option<string>, m: Manual)
    ensures Visible(role, m) ==> Visible(Some("admin"), m)
    ensures Visible(role, m) && role != Some("admin") ==> Visible(Some("inspector"), m)
    ensures Visible(None, m) ==> Visible(role, m)
  {
  }

  /** The nesting of the lists: another role's list within the inspector's, the inspector's within the admin's. */
  lemma ListsNested(role: Option<string>)
    requires role != Some("admin")
    ensures IsSubsequence(ManualsToShow(role), ManualsToShow(Some("inspector")))
    ensures IsSubsequence(ManualsToShow(Some("inspector")), ManualsToShow(Some("admin")))
  {
    FilterNarrower(AvailableManuals, m => Visible(Some("inspector"), m), m => Visible(role, m));
    FilterNarrower(AvailableManuals, m => Visible(Some("admin"), m), m => Visible(Some("inspector"), m));
  }

  const SlideshowPrefix: string := "/help-slideshow?role="

  /** A rendered button: its text and the route it pushes. */
  datatype Button = Button(text: string, route: string)

  /**
   * The rendered menu: one button per visible manual, in the same order,
   * labelled with the manual's label and routing to the slideshow of that
   * manual's own role.
   */
  function Buttons(role: Option<string>): (r: seq<Button>)
    ensures |r| == |ManualsToShow(role)|
    ensures forall i :: 0 <= i < |r| ==>
      && r[i].text == ManualsToShow(role)[i].title
      && |r[i].route| >= |SlideshowPrefix|
      && r[i].route[..|SlideshowPrefix|] == SlideshowPrefix
      && r[i].route[|SlideshowPrefix|..] == ManualsToShow(role)[i].role
  {
    var ms := ManualsToShow(role);
    seq(|ms|, i requires 0 <= i < |ms| => Button(ms[i].title, SlideshowPrefix + ms[i].role))
  }

  /** A button's route names a role whose manual the current role may see. */
  lemma ButtonRoutesToVisibleRole(role: Option<string>, i: nat)
    requires i < |Buttons(role)|
    ensures exists m :: m in AvailableManuals && Visible(role, m) && Buttons(role)[i].route == SlideshowPrefix + m.role
  {
    var m := ManualsToShow(role)[i];
    var route := Buttons(role)[i].route;
    assert route == route[..|SlideshowPrefix|] + route[|SlideshowPrefix|..];
  }
}
