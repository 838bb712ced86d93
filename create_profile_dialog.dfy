/** CreateProfileDialog: the rules a new profile's name must pass, and the
    dialog's result. */
module ProfileDialog {
  import opened Text
  import opened Paths
  import Models

  /** The longest profile name accepted. */
  const MaxNameLength := 50

  /** Why a name is refused, in the order the checks run. */
  datatype NameError = Empty | TooLong | InvalidCharacters

  /** char.IsLetterOrDigit, ' ', '-' or '_'. */
  predicate IsNameChar(c: char) {
    IsAsciiLetter(c) || IsDigit(c) || c == ' ' || c == '-' || c == '_'
  }

  /** IsValidProfileNameCharacter: typed text is let through only when every
      character is a letter, a digit, ' ', '-' or '_'. */
  predicate IsValidProfileNameCharacter(text: string) {
    forall i :: 0 <= i < |text| ==> IsNameChar(text[i])
  }

  /** ContainsInvalidCharacters: an invalid file-name character, '/' or
      '\'. */
  predicate ContainsInvalidCharacters(name: string) {
    exists i :: 0 <= i < |name| && (IsInvalidFileNameChar(name[i]) || name[i] == '/' || name[i] == '\\')
  }

  /** '/' and '\' are invalid file-name characters already, so the extra checks
      reject nothing more. */
  lemma SeparatorChecksRedundant(name: string)
    ensures ContainsInvalidCharacters(name) <==> exists i :: 0 <= i < |name| && IsInvalidFileNameChar(name[i])
  {
  }

  /** ValidateProfileName: nothing when the name is accepted; otherwise the
      first failing check. */
  function CheckProfileName(name: string): Option<NameError> {
    if IsBlank(name) then Some(Empty)
    else if |name| > MaxNameLength then Some(TooLong)
    else if ContainsInvalidCharacters(name) then Some(InvalidCharacters)
    else None
  }

  /** A name is accepted exactly when it is not blank, has at most 50
      characters and holds no invalid file-name character; a blank name is
      reported as empty whatever its length, and a long name as too long
      whatever its characters. */
  lemma CheckProfileNameSpec(name: string)
    ensures CheckProfileName(name).None? <==>
      !IsBlank(name) && |name| <= MaxNameLength && forall i :: 0 <= i < |name| ==> !IsInvalidFileNameChar(name[i])
    ensures IsBlank(name) ==> CheckProfileName(name) == Some(Empty)
    ensures !IsBlank(name) && |name| > MaxNameLength ==> CheckProfileName(name) == Some(TooLong)
    ensures CheckProfileName(name) == Some(InvalidCharacters) ==> !IsBlank(name) && |name| <= MaxNameLength
  {
    SeparatorChecksRedundant(name);
  }

  /** Typed text can never bring in an invalid file-name character. */
  lemma TypedTextIsValidFileName(text: string)
    requires IsValidProfileNameCharacter(text)
    ensures !ContainsInvalidCharacters(text)
  {
    forall i | 0 <= i < |text|
      ensures !IsInvalidFileNameChar(text[i]) && text[i] != '/' && text[i] != '\\'
    {
      assert IsNameChar(text[i]);
    }
  }

  /** The dialog: the text box, and Result (null until OK succeeds). */
  class CreateProfileDialog {
    var text: string
    var result: Option<Models.Profile>
    var dialogResult: Option<bool>
    var closed: bool

    /** An open dialog has no result; a closed one has a result exactly when it
        was closed by OK. */
    predicate Valid()
      reads this
    {
      && (!closed ==> result.None? && dialogResult.None?)
      && (closed ==> dialogResult.Some? && (result.Some? <==> dialogResult == Some(true)))
    }

    constructor()
      ensures Valid() && text == "" && result.None? && !closed
    {
      text := "";
      result := None;
      dialogResult := None;
      closed := false;
    }

    /** ProfileName_PreviewTextInput: typed text is inserted at the caret only
        when IsValidProfileNameCharacter accepts it. */
    method PreviewTextInput(input: string, caret: nat) returns (handled: bool)
      requires caret <= |text|
      modifies this
      ensures handled <==> !IsValidProfileNameCharacter(input)
      ensures handled ==> text == old(text)
      ensures !handled ==> text == old(text)[..caret] + input + old(text)[caret..]
      ensures result == old(result) && dialogResult == old(dialogResult) && closed == old(closed)
    {
      handled := !IsValidProfileNameCharacter(input);
      if !handled {
        text := text[..caret] + input + text[caret..];
      }
    }

    /** Ok_Click: the trimmed name is validated; a refused name is reported and
        the dialog stays open, an accepted one becomes Result, a profile with
        that name and no games, and the dialog closes with true. */
    method Ok() returns (error: Option<NameError>)
      requires Valid() && !closed
      modifies this
      ensures Valid()
      ensures error == CheckProfileName(Trim(old(text)))
      ensures error.Some? ==> result.None? && !closed && text == old(text)
      ensures error.None? ==> closed && dialogResult == Some(true) && result == Some(Models.Profile(Trim(old(text)), []))
    {
      var name := Trim(text);
      error := CheckProfileName(name);
      if error.Some? {
        return;
      }
      result := Some(Models.Profile(name, []));
      dialogResult := Some(true);
      closed := true;
    }

    /** Cancel_Click: the dialog closes with false and Result stays null. */
    method Cancel()
      requires Valid() && !closed
      modifies this
      ensures Valid() && closed && dialogResult == Some(false) && result.None?
    {
      dialogResult := Some(false);
      closed := true;
    }
  }

  /** A profile the dialog creates has a trimmed, non-blank name of at most 50
      characters that needs no sanitizing to become a file name. */
  lemma CreatedNameIsClean(text: string)
    requires CheckProfileName(Trim(text)).None?
    ensures !IsBlank(Trim(text)) && |Trim(text)| <= MaxNameLength
    ensures Trim(Trim(text)) == Trim(text)
    ensures forall i :: 0 <= i < |Trim(text)| ==> !IsInvalidFileNameChar(Trim(text)[i])
  {
    CheckProfileNameSpec(Trim(text));
    TrimOfTrimmed(Trim(text));
  }
}
