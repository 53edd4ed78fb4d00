/** The profile page (frontend/app/profile/page.tsx): the saved profile, the
    edit buffer with its save and cancel buttons, the preference switches,
    and the avatar initials. */
module ProfilePage {
  import opened Text

  datatype Profile = Profile(name: string, email: string, age: string, goals: string)

  datatype Preferences = Preferences(darkMode: bool, notifications: bool, weeklyReports: bool)

  /** The page's state. */
  datatype ProfileState = ProfileState(
    isEditing: bool,
    profile: Profile,
    editedProfile: Profile,
    preferences: Preferences)

  const InitialProfile := Profile("Sarah Johnson", "sarah.johnson@email.com", "28",
                                  "Improve sleep quality and manage work stress")

  /** The state the page mounts with: the buffer is a copy of the profile. */
  function Initial(): ProfileState
  {
    ProfileState(false, InitialProfile, InitialProfile, Preferences(false, true, true))
  }

  /** The email cannot be edited, so the buffer always carries the saved one. */
  predicate Valid(st: ProfileState)
  {
    st.editedProfile.email == st.profile.email
  }

  // ---------------------------------------------------------------------------
  // Handlers

  /** The Edit button. */
  function StartEditing(st: ProfileState): ProfileState
  {
    st.(isEditing := true)
  }

  /** handleSave. */
  function Save(st: ProfileState): ProfileState
  {
    st.(profile := st.editedProfile, isEditing := false)
  }

  /** handleCancel. */
  function Cancel(st: ProfileState): ProfileState
  {
    st.(editedProfile := st.profile, isEditing := false)
  }

  /** The three editable inputs: each writes one field of the buffer. */
  function EditName(st: ProfileState, value: string): ProfileState
  {
    st.(editedProfile := st.editedProfile.(name := value))
  }

  function EditAge(st: ProfileState, value: string): ProfileState
  {
    st.(editedProfile := st.editedProfile.(age := value))
  }

  function EditGoals(st: ProfileState, value: string): ProfileState
  {
    st.(editedProfile := st.editedProfile.(goals := value))
  }

  /** The three switches: each writes one key of the preferences. */
  function SetDarkMode(st: ProfileState, checked: bool): ProfileState
  {
    st.(preferences := st.preferences.(darkMode := checked))
  }

  function SetNotifications(st: ProfileState, checked: bool): ProfileState
  {
    st.(preferences := st.preferences.(notifications := checked))
  }

  function SetWeeklyReports(st: ProfileState, checked: bool): ProfileState
  {
    st.(preferences := st.preferences.(weeklyReports := checked))
  }

  // ---------------------------------------------------------------------------
  // What the form shows

  /** An editable field shows the buffer while editing and the saved value
      otherwise. */
  function ShownName(st: ProfileState): string
  {
    if st.isEditing then st.editedProfile.name else st.profile.name
  }

  function ShownAge(st: ProfileState): string
  {
    if st.isEditing then st.editedProfile.age else st.profile.age
  }

  function ShownGoals(st: ProfileState): string
  {
    if st.isEditing then st.editedProfile.goals else st.profile.goals
  }

  /** The email field always shows the saved email. */
  function ShownEmail(st: ProfileState): string
  {
    st.profile.email
  }

  /** The inputs and the camera button accept input only while editing. */
  predicate InputsEnabled(st: ProfileState)
  {
    st.isEditing
  }

  // ---------------------------------------------------------------------------
  // Properties

  /** Every handler keeps the buffer's email equal to the saved one; so the
      saved email never changes from the one the page mounted with. */
  lemma HandlersKeepValid(st: ProfileState, value: string, checked: bool)
    requires Valid(st)
    ensures Valid(Initial())
    ensures Valid(StartEditing(st)) && Valid(Save(st)) && Valid(Cancel(st))
    ensures Valid(EditName(st, value)) && Valid(EditAge(st, value)) && Valid(EditGoals(st, value))
    ensures Valid(SetDarkMode(st, checked)) && Valid(SetNotifications(st, checked))
    ensures Valid(SetWeeklyReports(st, checked))
    ensures Save(st).profile.email == st.profile.email
  {
  }

  /** Save commits the buffer, leaves editing mode and keeps the
      preferences; afterwards the form shows what was saved. */
  lemma SaveCommits(st: ProfileState)
    ensures var next := Save(st);
      && next.profile == st.editedProfile && next.editedProfile == st.editedProfile
      && !next.isEditing && next.preferences == st.preferences
      && ShownName(next) == st.editedProfile.name && ShownAge(next) == st.editedProfile.age
      && ShownGoals(next) == st.editedProfile.goals
  {
  }

  /** Cancel discards the buffer: the profile is unchanged, the buffer is a
      copy of it again, and the form shows the saved values. */
  lemma CancelDiscards(st: ProfileState)
    ensures var next := Cancel(st);
      && next.profile == st.profile && next.editedProfile == st.profile
      && !next.isEditing && next.preferences == st.preferences
      && ShownName(next) == st.profile.name && ShownAge(next) == st.profile.age
      && ShownGoals(next) == st.profile.goals
  {
  }

  /** Edits made and then cancelled leave no trace: cancel after any edit is
      cancel alone. */
  lemma CancelForgetsEdits(st: ProfileState, value: string)
    ensures Cancel(EditName(st, value)) == Cancel(st)
    ensures Cancel(EditAge(st, value)) == Cancel(st)
    ensures Cancel(EditGoals(st, value)) == Cancel(st)
  {
  }

  /** An edit that is saved is the only change to the profile besides what
      the buffer already held. */
  lemma SaveAfterEdit(st: ProfileState, value: string)
    requires st.editedProfile == st.profile
    ensures Save(EditName(st, value)).profile == st.profile.(name := value)
    ensures Save(EditAge(st, value)).profile == st.profile.(age := value)
    ensures Save(EditGoals(st, value)).profile == st.profile.(goals := value)
  {
  }

  /** Editing one field changes only that field of the buffer, and shows
      while editing. */
  lemma EditChangesOneField(st: ProfileState, value: string)
    requires st.isEditing
    ensures var n := EditName(st, value);
      && ShownName(n) == value && ShownAge(n) == ShownAge(st) && ShownGoals(n) == ShownGoals(st)
      && n.profile == st.profile && n.preferences == st.preferences
    ensures var a := EditAge(st, value);
      && ShownAge(a) == value && ShownName(a) == ShownName(st) && ShownGoals(a) == ShownGoals(st)
      && a.profile == st.profile && a.preferences == st.preferences
    ensures var g := EditGoals(st, value);
      && ShownGoals(g) == value && ShownName(g) == ShownName(st) && ShownAge(g) == ShownAge(st)
      && g.profile == st.profile && g.preferences == st.preferences
  {
  }

  /** Outside editing mode an edit changes nothing the form shows. */
  lemma EditHiddenOutsideEditing(st: ProfileState, value: string)
    requires !st.isEditing
    ensures ShownName(EditName(st, value)) == st.profile.name
    ensures ShownAge(EditAge(st, value)) == st.profile.age
    ensures ShownGoals(EditGoals(st, value)) == st.profile.goals
  {
  }

  /** Each switch sets its own key and leaves the others and the profile
      alone. */
  lemma SwitchesAreIndependent(st: ProfileState, checked: bool)
    ensures var d := SetDarkMode(st, checked).preferences;
      d.darkMode == checked && d.notifications == st.preferences.notifications &&
      d.weeklyReports == st.preferences.weeklyReports
    ensures var n := SetNotifications(st, checked).preferences;
      n.notifications == checked && n.darkMode == st.preferences.darkMode &&
      n.weeklyReports == st.preferences.weeklyReports
    ensures var w := SetWeeklyReports(st, checked).preferences;
      w.weeklyReports == checked && w.darkMode == st.preferences.darkMode &&
      w.notifications == st.preferences.notifications
    ensures SetDarkMode(st, checked).profile == st.profile
    ensures SetNotifications(st, checked).editedProfile == st.editedProfile
  {
  }

  // ---------------------------------------------------------------------------
  // Initials

  /** `words.map(n => n[0]).join("")`: an empty word has no first
      character, and `join` writes the missing value as nothing. */
  function FirstChars(words: seq<string>): (s: string)
    ensures |s| <= |words|
    ensures (forall k :: 0 <= k < |words| ==> words[k] != []) ==>
      |s| == |words| && forall k :: 0 <= k < |words| ==> s[k] == words[k][0]
  {
    if words == [] then ""
    else (if words[0] == [] then "" else [words[0][0]]) + FirstChars(words[1..])
  }

  /** The avatar fallback: `profile.name.split(" ").map(n => n[0]).join("")`. */
  function Initials(name: string): (s: string)
    ensures ' ' !in s
    ensures var words := SplitOn(name, ' ');
      (forall k :: 0 <= k < |words| ==> words[k] != []) ==>
        |s| == |words| && forall k :: 0 <= k < |words| ==> s[k] == words[k][0]
  {
    var words := SplitOn(name, ' ');
    FirstCharsAvoid(words, ' ');
    FirstChars(words)
  }

  /** First characters of words that avoid c avoid c. */
  lemma {:induction false} FirstCharsAvoid(words: seq<string>, c: char)
    requires forall k :: 0 <= k < |words| ==> c !in words[k]
    ensures c !in FirstChars(words)
  {
    if words != [] {
      FirstCharsAvoid(words[1..], c);
    }
  }

  /** The initials of two words joined by one space are their first letters. */
  lemma InitialsOfTwoWords(first: string, last: string)
    requires first != [] && last != [] && ' ' !in first && ' ' !in last
    ensures Initials(first + " " + last) == [first[0], last[0]]
  {
    SplitOnAppend(first, ' ', last);
    SplitOnNoSep(first, ' ');
    SplitOnNoSep(last, ' ');
    assert first + " " + last == first + [' '] + last;
    var words := [first] + [last];
    assert SplitOn(first + " " + last, ' ') == words;
    assert words[1..] == [last];
    assert [last][1..] == [];
    assert FirstChars([last]) == [last[0]];
    assert FirstChars(words) == [first[0]] + FirstChars([last]);
  }

  /** "Sarah Johnson" gives "SJ". */
  lemma SarahJohnson()
    ensures Initials(InitialProfile.name) == "SJ"
  {
    assert InitialProfile.name == "Sarah" + " " + "Johnson";
    InitialsOfTwoWords("Sarah", "Johnson");
  }

  // ---------------------------------------------------------------------------
  // The page

  class Page {
    var isEditing: bool
    var profile: Profile
    var editedProfile: Profile
    var preferences: Preferences

    function State(): ProfileState
      reads this
    {
      ProfileState(isEditing, profile, editedProfile, preferences)
    }

    constructor ()
      ensures State() == Initial()
    {
      isEditing := false;
      profile := InitialProfile;
      editedProfile := InitialProfile;
      preferences := Preferences(false, true, true);
    }

    method StartEdit()
      modifies this
      ensures State() == StartEditing(old(State()))
    {
      isEditing := true;
    }

    method HandleSave()
      modifies this
      ensures State() == Save(old(State()))
    {
      profile := editedProfile;
      isEditing := false;
    }

    method HandleCancel()
      modifies this
      ensures State() == Cancel(old(State()))
    {
      editedProfile := profile;
      isEditing := false;
    }

    method ChangeName(value: string)
      modifies this
      ensures State() == EditName(old(State()), value)
    {
      editedProfile := editedProfile.(name := value);
    }

    method ChangeAge(value: string)
      modifies this
      ensures State() == EditAge(old(State()), value)
    {
      editedProfile := editedProfile.(age := value);
    }

    method ChangeGoals(value: string)
      modifies this
      ensures State() == EditGoals(old(State()), value)
    {
      editedProfile := editedProfile.(goals := value);
    }

    method ToggleDarkMode(checked: bool)
      modifies this
      ensures State() == SetDarkMode(old(State()), checked)
    {
      preferences := preferences.(darkMode := checked);
    }

    method ToggleNotifications(checked: bool)
      modifies this
      ensures State() == SetNotifications(old(State()), checked)
    {
      preferences := preferences.(notifications := checked);
    }

    method ToggleWeeklyReports(checked: bool)
      modifies this
      ensures State() == SetWeeklyReports(old(State()), checked)
    {
      preferences := preferences.(weeklyReports := checked);
    }
  }
}
