/** The image upload filename filter `allowed_file`. */
module Uploads {
  import opened Common
  import opened Text

  /** The `ALLOWED_EXTENSIONS` configuration value. */
  const AllowedExtensions: set<string> := {"png", "jpg", "jpeg", "gif", "webp"}

  /** The position of the last '.' in `s`, if there is one. */
  function LastDot(s: string): (r: Option<nat>)
    ensures r.Some? ==> r.value < |s| && s[r.value] == '.' && forall j :: r.value < j < |s| ==> s[j] != '.'
    ensures r.None? ==> forall j :: 0 <= j < |s| ==> s[j] != '.'
  {
    if s == [] then None
    else if s[|s| - 1] == '.' then Some(|s| - 1)
    else LastDot(s[..|s| - 1])
  }

  /** The name has a dot, and what follows its last dot, lower-cased, is an allowed extension. */
  function AllowedFile(filename: string): bool {
    match LastDot(filename)
    case None => false
    case Some(i) => Lower(filename[i + 1..]) in AllowedExtensions
  }

  /**
   * A filename is accepted exactly when it contains a '.' and the text after
   * its last '.', lower-cased, is one of the allowed extensions.
   */
  lemma AllowedFileMeaning(filename: string)
    ensures AllowedFile(filename) <==>
      exists i :: 0 <= i < |filename| && filename[i] == '.' &&
        (forall j :: i < j < |filename| ==> filename[j] != '.') &&
        Lower(filename[i + 1..]) in AllowedExtensions
  {
    match LastDot(filename)
    case None =>
    case Some(k) =>
      forall i | 0 <= i < |filename| && filename[i] == '.' && (forall j :: i < j < |filename| ==> filename[j] != '.')
        ensures i == k
      {
      }
  }

  /** A name without a '.' is refused, whatever it spells. */
  lemma NoDotRefused(filename: string)
    requires forall j :: 0 <= j < |filename| ==> filename[j] != '.'
    ensures !AllowedFile(filename)
  {
  }
}
