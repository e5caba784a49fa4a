/** The two small form helpers of timetabler/helpers.py: the upload extension test and the
    checkbox reading. */
module FormHelpers {
  import opened Seqs

  /** `ALLOWED_EXTENSIONS` (timetabler/__init__.py:16). */
  const AllowedExtensions: set<string> := {"xls", "xlsx", "csv"}

  /** The position of the last dot of a file name, if it has one. */
  function LastDot(filename: string): (k: Option<nat>)
    ensures k.Some? ==> k.value < |filename| && filename[k.value] == '.' && '.' !in filename[k.value + 1..]
    ensures k.None? <==> '.' !in filename
  {
    if filename == [] then None
    else
      var n := |filename| - 1;
      if filename[n] == '.' then Some(n)
      else
        var k := LastDot(filename[..n]);
        assert forall p :: 0 <= p < n ==> filename[..n][p] == filename[p];
        assert k.Some? ==> filename[k.value + 1..] == filename[..n][k.value + 1..] + [filename[n]];
        k
  }

  /** `allowed_file` (helpers.py:285-294): the name has a dot and what follows the last dot is
      an allowed extension. */
  function AllowedFile(filename: string): (ok: bool)
    ensures ok ==> '.' in filename
  {
    match LastDot(filename)
    case None => false
    case Some(k) => filename[k + 1..] in AllowedExtensions
  }

  /** A name ending in a dot and a dot-free extension is allowed exactly when that extension
      is, whatever the rest of the name holds (further dots included). */
  lemma {:induction false} AllowedFileOf(base: string, ext: string)
    requires '.' !in ext
    ensures AllowedFile(base + "." + ext) <==> ext in AllowedExtensions
  {
    LastDotBefore(base + ".", ext);
    assert (base + "." + ext)[|base| + 1..] == ext;
  }

  /** Dot-free text after a dot leaves that dot the last one. */
  lemma {:induction false} LastDotBefore(front: string, ext: string)
    requires |front| > 0 && front[|front| - 1] == '.' && '.' !in ext
    ensures LastDot(front + ext) == Some(|front| - 1)
  {
    if ext != [] {
      var n := |ext| - 1;
      assert (front + ext)[..|front| + n] == front + ext[..n];
      assert ext[n] in ext;
      LastDotBefore(front, ext[..n]);
    } else {
      assert front + ext == front;
    }
  }

  /** `checkboxvalue` (helpers.py:316-328): 1 for a ticked box (a value in the form), 0 for an
      unticked one (no value). */
  function CheckboxValue(checkbox: Option<string>): (v: int)
    ensures v == 1 <==> checkbox.Some?
    ensures v == 0 <==> checkbox.None?
  {
    if checkbox.Some? then 1 else 0
  }
}
