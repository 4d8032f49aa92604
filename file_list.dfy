/** The two list rebuilds the sidebar uses: `files.filter(...)` on delete and `files.map(...)` on rename. */
module FileList {
  import opened FileNames

  /** `a` is `b` with some elements dropped, the rest in their original order. */
  ghost predicate IsSubsequence(a: seq<string>, b: seq<string>)
    decreases |b|
  {
    if a == [] then true
    else if b == [] then false
    else if a[0] == b[0] then IsSubsequence(a[1..], b[1..])
    else IsSubsequence(a, b[1..])
  }

  /** Every name in the list ends in `.md`. */
  ghost predicate AllMd(files: seq<string>) {
    forall i :: 0 <= i < |files| ==> HasMdSuffix(files[i])
  }

  /** `files.filter(file => file !== name)`. */
  function RemoveAll(files: seq<string>, name: string): (r: seq<string>)
    ensures name !in r
    ensures multiset(r) == multiset(files)[name := 0]
    ensures IsSubsequence(r, files)
  {
    if files == [] then []
    else
      var rest := RemoveAll(files[1..], name);
      assert files == [files[0]] + files[1..];
      if files[0] == name then
        SubsequenceOfTail(rest, files);
        rest
      else
        [files[0]] + rest
  }

  /** A subsequence of the tail is a subsequence of the whole. */
  lemma {:induction false} SubsequenceOfTail(a: seq<string>, b: seq<string>)
    requires b != [] && IsSubsequence(a, b[1..])
    ensures IsSubsequence(a, b)
    decreases |a| + |b|
  {
    if a != [] && a[0] == b[0] {
      SubsequenceDropHead(a, b[1..]);
    }
  }

  /** Dropping the first element of a subsequence keeps it a subsequence. */
  lemma {:induction false} SubsequenceDropHead(a: seq<string>, b: seq<string>)
    requires a != [] && IsSubsequence(a, b)
    ensures IsSubsequence(a[1..], b)
    decreases |a| + |b|
  {
    if a[0] == b[0] {
      if a[1..] != [] {
        SubsequenceOfTail(a[1..], b);
      }
    } else {
      SubsequenceDropHead(a, b[1..]);
      SubsequenceOfTail(a[1..], b);
    }
  }

  /** `files.map(file => file === oldName ? newName : file)`. */
  function ReplaceAll(files: seq<string>, oldName: string, newName: string): (r: seq<string>)
    ensures |r| == |files|
    ensures forall i :: 0 <= i < |files| ==> r[i] == if files[i] == oldName then newName else files[i]
  {
    if files == [] then [] else [if files[0] == oldName then newName else files[0]] + ReplaceAll(files[1..], oldName, newName)
  }

  /** After a rename the old name is gone, and the new name is present exactly when it was or the old one was. */
  lemma ReplaceAllMembership(files: seq<string>, oldName: string, newName: string)
    requires oldName != newName
    ensures oldName !in ReplaceAll(files, oldName, newName)
    ensures newName in ReplaceAll(files, oldName, newName) <==> newName in files || oldName in files
  {
  }

  /** Renaming a file to its own name leaves the list as it was. */
  lemma ReplaceAllSelf(files: seq<string>, name: string)
    ensures ReplaceAll(files, name, name) == files
  {
  }

  /** Deleting keeps the names that end in `.md` ending in `.md`. */
  lemma RemoveAllKeepsMd(files: seq<string>, name: string)
    requires AllMd(files)
    ensures AllMd(RemoveAll(files, name))
  {
  }

  /** Renaming to a normalised name keeps every name ending in `.md`. */
  lemma ReplaceAllKeepsMd(files: seq<string>, oldName: string, newName: string)
    requires AllMd(files) && HasMdSuffix(newName)
    ensures AllMd(ReplaceAll(files, oldName, newName))
  {
  }
}
