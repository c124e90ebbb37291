/** The account settings page: the change-password form, its two warnings,
    the save button, and the delete-restaurant dialog. */
module AccountSetting {
  import opened Text

  const MIN_PASSWORD: nat := 6

  /** `canSave`: the new password is at least six characters once trimmed,
      and the confirmation repeats it exactly (untrimmed). */
  predicate CanSave(newPwd: string, confirmPwd: string) {
    |JsTrim(newPwd)| >= MIN_PASSWORD && newPwd == confirmPwd
  }

  /** "Passwords do not match.": both fields filled in and different. */
  predicate MismatchWarning(newPwd: string, confirmPwd: string) {
    newPwd != "" && confirmPwd != "" && newPwd != confirmPwd
  }

  /** "Password should be at least 6 characters.": a new password shorter
      than six characters, counted untrimmed. */
  predicate LengthWarning(newPwd: string) {
    newPwd != "" && |newPwd| < MIN_PASSWORD
  }

  /** The save button is disabled unless the form can be saved, and while a
      save is running. */
  predicate SaveDisabled(newPwd: string, confirmPwd: string, saving: bool) {
    !CanSave(newPwd, confirmPwd) || saving
  }

  /** Trimming never lengthens a text. */
  lemma JsTrimShorter(s: string)
    ensures |JsTrim(s)| <= |s|
  {
    var u := TrimStart(s, IsJsSpace);
    assert |TrimEnd(u, IsJsSpace)| <= |u|;
  }

  /** A savable form shows neither warning. */
  lemma SavableShowsNoWarning(newPwd: string, confirmPwd: string)
    requires CanSave(newPwd, confirmPwd)
    ensures !MismatchWarning(newPwd, confirmPwd) && !LengthWarning(newPwd)
  {
    JsTrimShorter(newPwd);
  }

  /** Either warning means the form cannot be saved. */
  lemma WarningBlocksSave(newPwd: string, confirmPwd: string)
    ensures MismatchWarning(newPwd, confirmPwd) || LengthWarning(newPwd) ==> !CanSave(newPwd, confirmPwd)
  {
    JsTrimShorter(newPwd);
  }

  /** The warnings do not cover everything that blocks a save: a password
      of six or more characters that is shorter once trimmed, typed twice,
      shows no warning and still cannot be saved. */
  lemma PaddedPasswordSilentlyRefused(newPwd: string)
    requires |newPwd| >= MIN_PASSWORD && |JsTrim(newPwd)| < MIN_PASSWORD
    ensures !CanSave(newPwd, newPwd)
    ensures !MismatchWarning(newPwd, newPwd) && !LengthWarning(newPwd)
  {
  }

  /** Three letters and three spaces. */
  const PADDED: string := "abc   "

  /** `PADDED` is such a password: six characters, three once trimmed. */
  lemma PaddedIsShortOnceTrimmed()
    ensures |PADDED| == MIN_PASSWORD && JsTrim(PADDED) == "abc"
    ensures !CanSave(PADDED, PADDED) && !LengthWarning(PADDED) && !MismatchWarning(PADDED, PADDED)
  {
    var s := PADDED;
    assert !IsJsSpace(s[0]);
    assert TrimStart(s, IsJsSpace) == s;
    var r := TrimEnd(s, IsJsSpace);
    assert !IsJsSpace(s[2]);
    assert |r| >= 3;
    assert s[3] == ' ' && s[4] == ' ' && s[5] == ' ';
    assert |r| == 3;
    assert r == s[..3] == "abc";
  }

  /** The form's state. */
  class SettingsPage {
    var newPwd: string
    var confirmPwd: string
    var saving: bool
    var showDeleteConfirm: bool

    /** Empty fields, no save running, no dialog. */
    constructor ()
      ensures newPwd == "" && confirmPwd == "" && !saving && !showDeleteConfirm
    {
      newPwd, confirmPwd, saving, showDeleteConfirm := "", "", false, false;
    }

    /** The save button's state. */
    predicate Disabled()
      reads this
    {
      SaveDisabled(newPwd, confirmPwd, saving)
    }

    /** `onSave`: nothing unless the form can be saved; otherwise both fields
        are cleared and the save is over. Either way the button is then
        disabled, and the dialog is left alone. */
    method OnSave()
      modifies this
      ensures CanSave(old(newPwd), old(confirmPwd)) ==> newPwd == "" && confirmPwd == "" && !saving
      ensures !CanSave(old(newPwd), old(confirmPwd)) ==>
                newPwd == old(newPwd) && confirmPwd == old(confirmPwd) && saving == old(saving)
      ensures showDeleteConfirm == old(showDeleteConfirm)
      ensures Disabled()
    {
      if !CanSave(newPwd, confirmPwd) {
        return;
      }
      saving := true;
      newPwd, confirmPwd := "", "";
      saving := false;
    }

    /** "Delete Restaurant" opens the dialog. */
    method AskDelete()
      modifies this
      ensures showDeleteConfirm
      ensures newPwd == old(newPwd) && confirmPwd == old(confirmPwd) && saving == old(saving)
    {
      showDeleteConfirm := true;
    }

    /** `onConfirmDelete` and "No" both only close the dialog: nothing is
        deleted. */
    method CloseDeleteDialog()
      modifies this
      ensures !showDeleteConfirm
      ensures newPwd == old(newPwd) && confirmPwd == old(confirmPwd) && saving == old(saving)
    {
      showDeleteConfirm := false;
    }
  }
}
