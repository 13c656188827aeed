/**
 The run context read from the GitHub Actions environment: the branch whose earlier runs
 are searched, and the file name of the running workflow.

 Environment reads are parameters: `None` is a variable that is not set (`getenv` returns
 `false`), `Some(v)` one that is.
 */
module ActionContext {
  import opened Wrappers

  /** A set variable whose value PHP does not treat as false: neither `""` nor `"0"`. */
  predicate Truthy(v: Option<string>) {
    v.Some? && v.value != "" && v.value != "0"
  }

  /** `getenv(...) ?: default`, cast to string. */
  function OrElse(v: Option<string>, default: string): string {
    if Truthy(v) then v.value else default
  }

  /**
   `getBranch`: the pull-request head ref when it is set and truthy, else the ref name when
   it is, else `main`. Since `"0"` is falsy in PHP, a branch literally named `0` is never
   returned, and the result is never empty.
   */
  function GetBranch(headRef: Option<string>, refName: Option<string>): (r: string)
    ensures r != "" && r != "0"
    ensures Truthy(headRef) ==> r == headRef.value
    ensures !Truthy(headRef) && Truthy(refName) ==> r == refName.value
    ensures !Truthy(headRef) && !Truthy(refName) ==> r == "main"
  {
    var head := OrElse(headRef, "");
    if head != "" then head else OrElse(refName, "main")
  }

  /** The length of the `.yaml@` or `.yml@` that starts at `q`, or 0 when neither does. */
  function SuffixLen(s: string, q: nat): (n: nat)
    ensures n == 0 || n == 5 || n == 6
    ensures n > 0 ==> q + n <= |s| && s[q] == '.' && s[q + n - 1] == '@'
  {
    if q + 6 <= |s| && s[q..q + 6] == ".yaml@" then
      assert s[q] == s[q..q + 6][0] && s[q + 5] == s[q..q + 6][5];
      6
    else if q + 5 <= |s| && s[q..q + 5] == ".yml@" then
      assert s[q] == s[q..q + 5][0] && s[q + 4] == s[q..q + 5][4];
      5
    else 0
  }

  /** No `/` in `s[i..j]`. */
  predicate NoSlash(s: string, i: nat, j: nat)
    requires i <= j <= |s|
  {
    forall k :: i <= k < j ==> s[k] != '/'
  }

  /**
   `/([^/]+\.ya?ml)@` can match with its slash at `p` and its dot at `q`: at least one
   non-slash character between them, then `.yml@` or `.yaml@`.
   */
  predicate Candidate(s: string, p: nat, q: nat) {
    p + 2 <= q < |s| && s[p] == '/' && NoSlash(s, p + 1, q) && SuffixLen(s, q) > 0
  }

  /** The captured file name of the match with slash `p` and dot `q`. */
  function Capture(s: string, p: nat, q: nat): string
    requires Candidate(s, p, q)
  {
    s[p + 1..q + SuffixLen(s, q) - 1]
  }

  /** The end of the run of non-slash characters that starts at `i`. */
  function SlashFrom(s: string, i: nat): (e: nat)
    requires i <= |s|
    ensures i <= e <= |s| && NoSlash(s, i, e)
    ensures e < |s| ==> s[e] == '/'
    decreases |s| - i
  {
    if i == |s| || s[i] == '/' then i else SlashFrom(s, i + 1)
  }

  /** The last dot in `[lo, hi)` that starts `.yml@` or `.yaml@`, searching downwards. */
  function LastSuffix(s: string, lo: nat, hi: nat): (q: Option<nat>)
    requires hi <= |s|
    ensures q.Some? ==> lo <= q.value < hi && SuffixLen(s, q.value) > 0
    ensures q.Some? ==> forall k :: q.value < k < hi ==> SuffixLen(s, k) == 0
    ensures q.None? ==> forall k :: lo <= k < hi ==> SuffixLen(s, k) == 0
    decreases hi
  {
    if hi <= lo then None
    else if SuffixLen(s, hi - 1) > 0 then Some(hi - 1)
    else LastSuffix(s, lo, hi - 1)
  }

  /**
   The match whose slash is at `p`, if any: `[^/]+` is greedy, so the dot is the last
   suitable one inside the slash-free run after `p`.
   */
  function MatchFileAt(s: string, p: nat): (q: Option<nat>)
    requires p < |s| && s[p] == '/'
  {
    var e := SlashFrom(s, p + 1);
    LastSuffix(s, p + 2, e)
  }

  /** The leftmost match at or after `i`, as its slash and dot positions. */
  function FindFile(s: string, i: nat): (m: Option<(nat, nat)>)
    requires i <= |s|
    decreases |s| - i
  {
    if i == |s| then None
    else if s[i] == '/' then
      match MatchFileAt(s, i)
      case Some(q) => Some((i, q))
      case None => FindFile(s, i + 1)
    else FindFile(s, i + 1)
  }

  /** No match has its slash at or after `i`. */
  ghost predicate NoMatchFrom(s: string, i: nat) {
    forall p: nat, q: nat :: i <= p ==> !Candidate(s, p, q)
  }

  /** A match with slash `p` and dot `q`, and no later dot for the same slash: `[^/]+` is greedy. */
  ghost predicate Greedy(s: string, p: nat, q: nat) {
    Candidate(s, p, q) && forall q': nat :: q < q' ==> !Candidate(s, p, q')
  }

  /** The greedy match of the leftmost slash, at or after `i`, that starts any match. */
  ghost predicate FirstMatchFrom(s: string, i: nat, p: nat, q: nat) {
    i <= p && Greedy(s, p, q) && forall p': nat, q': nat :: i <= p' < p ==> !Candidate(s, p', q')
  }

  /**
   `getWorkflowName`: the file name `preg_match` captures from the workflow ref, or `""`
   when the variable is unset or falsy or nothing matches. The name is empty exactly when
   there is no match, and otherwise is the capture of the leftmost, greedy match.
   */
  function GetWorkflowName(workflowRef: Option<string>): (name: string)
    ensures name == "" <==> NoMatchFrom(OrElse(workflowRef, ""), 0)
    ensures name != "" ==> exists p: nat, q: nat ::
      FirstMatchFrom(OrElse(workflowRef, ""), 0, p, q) && name == Capture(OrElse(workflowRef, ""), p, q)
  {
    var s := OrElse(workflowRef, "");
    FindFileSound(s, 0);
    match FindFile(s, 0)
    case Some((p, q)) => Capture(s, p, q)
    case None => ""
  }

  /** What `MatchFileAt` finds is the greedy candidate for that slash. */
  lemma MatchFileAtSound(s: string, p: nat)
    requires p < |s| && s[p] == '/'
    ensures MatchFileAt(s, p).Some? ==> Greedy(s, p, MatchFileAt(s, p).value)
    ensures MatchFileAt(s, p).None? ==> forall q: nat :: !Candidate(s, p, q)
  {
    var e := SlashFrom(s, p + 1);
    forall q: nat | Candidate(s, p, q)
      ensures q < e
    {
    }
  }

  /** `FindFile` finds the leftmost, greedy match, and finds one whenever one exists. */
  lemma {:induction false} FindFileSound(s: string, i: nat)
    requires i <= |s|
    ensures FindFile(s, i).Some? ==> FirstMatchFrom(s, i, FindFile(s, i).value.0, FindFile(s, i).value.1)
    ensures FindFile(s, i).None? ==> NoMatchFrom(s, i)
    decreases |s| - i
  {
    if i < |s| {
      FindFileSound(s, i + 1);
      if s[i] == '/' {
        MatchFileAtSound(s, i);
      }
    }
  }

  /**
   The capture of a match is a file name without `/`, ending in `.yml` or `.yaml` after at
   least one character, that stands right after the `/` at `p` and right before an `@`.
   */
  lemma CaptureShape(s: string, p: nat, q: nat)
    requires Candidate(s, p, q)
    ensures var name := Capture(s, p, q);
      (forall k :: 0 <= k < |name| ==> name[k] != '/')
      && ((|name| > 4 && name[|name| - 4..] == ".yml") || (|name| > 5 && name[|name| - 5..] == ".yaml"))
      && p + |name| + 1 < |s| && s[p + 1..p + 1 + |name|] == name && s[p + 1 + |name|] == '@'
  {
    var name := Capture(s, p, q);
    var n := SuffixLen(s, q);
    var full := if n == 6 then ".yaml@" else ".yml@";
    assert s[q..q + n] == full;
    var ext := if n == 6 then ".yaml" else ".yml";
    assert |ext| == n - 1;
    assert forall k :: 0 <= k < |ext| ==> ext[k] == full[k];
    assert |name| == q - p - 1 + |ext|;
    assert name[|name| - |ext|..] == ext by {
      assert name[|name| - |ext|..] == s[q..q + |ext|];
    }
    forall k | 0 <= k < |name|
      ensures name[k] != '/'
    {
      assert name[k] == s[p + 1 + k];
      if q <= p + 1 + k {
        assert s[p + 1 + k] == full[p + 1 + k - q];
      }
    }
  }

  /**
   A non-empty workflow name is a file name without `/`, ending in `.yml` or `.yaml` after
   at least one character, found in the ref right after a `/` and right before an `@`.
   */
  lemma WorkflowNameShape(workflowRef: Option<string>)
    ensures var s, name := OrElse(workflowRef, ""), GetWorkflowName(workflowRef);
      name != "" ==>
        (forall k :: 0 <= k < |name| ==> name[k] != '/')
        && ((|name| > 4 && name[|name| - 4..] == ".yml") || (|name| > 5 && name[|name| - 5..] == ".yaml"))
        && (exists p: nat ::
              p + |name| + 1 < |s| && s[p] == '/' && s[p + 1..p + 1 + |name|] == name && s[p + 1 + |name|] == '@')
  {
    var s, name := OrElse(workflowRef, ""), GetWorkflowName(workflowRef);
    if name != "" {
      var p: nat, q: nat :| FirstMatchFrom(s, 0, p, q) && name == Capture(s, p, q);
      CaptureShape(s, p, q);
    }
  }

  /** No `@` anywhere in `s`. */
  predicate NoAt(s: string) {
    forall k :: 0 <= k < |s| ==> s[k] != '@'
  }

  /** The only `@` of `dir + stem + ext + "@" + rest` is the one after `ext`. */
  lemma SingleAt(dir: string, stem: string, ext: string, rest: string)
    requires NoAt(dir) && NoAt(stem) && NoAt(ext) && NoAt(rest)
    ensures var s := dir + stem + ext + "@" + rest;
      forall k :: 0 <= k < |s| && s[k] == '@' ==> k == |dir| + |stem| + |ext|
  {
    var s := dir + stem + ext + "@" + rest;
    var q, at := |dir| + |stem|, |dir| + |stem| + |ext|;
    forall k | 0 <= k < |s| && k != at
      ensures s[k] != '@'
    {
      if k < |dir| {
        assert s[k] == dir[k];
      } else if k < q {
        assert s[k] == stem[k - |dir|];
      } else if k < at {
        assert s[k] == ext[k - q];
      } else {
        assert s[k] == rest[k - at - 1];
      }
    }
  }

  /** The slash ending `dir` and the dot starting `ext` form a match. */
  lemma RefCandidate(dir: string, stem: string, ext: string, rest: string)
    requires 0 < |dir| && dir[|dir| - 1] == '/'
    requires 0 < |stem| && (ext == ".yml" || ext == ".yaml")
    requires NoSlash(stem, 0, |stem|)
    ensures Candidate(dir + stem + ext + "@" + rest, |dir| - 1, |dir| + |stem|)
    ensures SuffixLen(dir + stem + ext + "@" + rest, |dir| + |stem|) == |ext| + 1
  {
    var s := dir + stem + ext + "@" + rest;
    var p, q := |dir| - 1, |dir| + |stem|;
    assert s[p] == '/';
    forall k | p + 1 <= k < q
      ensures s[k] != '/'
    {
      assert s[k] == stem[k - |dir|];
    }
    if ext == ".yml" {
      assert s[q..q + 5] == ".yml@";
      assert s[q + 2] == 'm';
    } else {
      assert s[q..q + 6] == ".yaml@";
    }
  }

  /** With a single `@`, the match of `RefCandidate` is the only one. */
  lemma RefUniqueCandidate(dir: string, stem: string, ext: string, rest: string, p': nat, q': nat)
    requires 0 < |dir| && dir[|dir| - 1] == '/'
    requires 0 < |stem| && (ext == ".yml" || ext == ".yaml")
    requires NoSlash(stem, 0, |stem|)
    requires NoAt(dir) && NoAt(stem) && NoAt(rest)
    requires Candidate(dir + stem + ext + "@" + rest, p', q')
    ensures p' == |dir| - 1 && q' == |dir| + |stem|
  {
    var s := dir + stem + ext + "@" + rest;
    var p, q, at := |dir| - 1, |dir| + |stem|, |dir| + |stem| + |ext|;
    RefCandidate(dir, stem, ext, rest);
    SingleAt(dir, stem, ext, rest);
    var n := SuffixLen(s, q');
    assert s[q' + n - 1] == '@';
    assert q' + n - 1 == at;
    assert s[at - 3] == (if n == 6 then 'a' else 'y') by {
      if n == 6 {
        assert s[q'..q' + 6] == ".yaml@";
      } else {
        assert s[q'..q' + 5] == ".yml@";
      }
    }
    assert s[at - 3] == (if ext == ".yaml" then 'a' else 'y') by {
      assert s[at - 3] == ext[|ext| - 3];
    }
    assert s[p] == '/';
  }

  /**
   In a ref `dir + stem + ext + "@" + rest` whose only `@` is the one after the file name,
   where `dir` ends with `/` and `stem + ext` is a slash-free `.yml` or `.yaml` name, the
   workflow name is `stem + ext`.
   */
  lemma WorkflowNameOfRef(dir: string, stem: string, ext: string, rest: string)
    requires 0 < |dir| && dir[|dir| - 1] == '/'
    requires 0 < |stem| && (ext == ".yml" || ext == ".yaml")
    requires NoSlash(stem, 0, |stem|)
    requires NoAt(dir) && NoAt(stem) && NoAt(rest)
    ensures GetWorkflowName(Some(dir + stem + ext + "@" + rest)) == stem + ext
  {
    var s := dir + stem + ext + "@" + rest;
    var p, q := |dir| - 1, |dir| + |stem|;
    RefFindsFile(dir, stem, ext, rest);
    RefCandidate(dir, stem, ext, rest);
    NameOfFind(s, p, q);
    assert q + SuffixLen(s, q) - 1 == |dir| + |stem| + |ext|;
    FileOfRef(dir, stem, ext, rest);
  }

  /** When the scan finds slash `p` and dot `q`, the name is their capture. */
  lemma NameOfFind(s: string, p: nat, q: nat)
    requires FindFile(s, 0) == Some((p, q)) && Candidate(s, p, q)
    ensures GetWorkflowName(Some(s)) == (if s == "" || s == "0" then "" else Capture(s, p, q))
  {
  }

  lemma RefFindsFile(dir: string, stem: string, ext: string, rest: string)
    requires 0 < |dir| && dir[|dir| - 1] == '/'
    requires 0 < |stem| && (ext == ".yml" || ext == ".yaml")
    requires NoSlash(stem, 0, |stem|)
    requires NoAt(dir) && NoAt(stem) && NoAt(rest)
    ensures FindFile(dir + stem + ext + "@" + rest, 0) == Some((|dir| - 1, |dir| + |stem|))
  {
    var s := dir + stem + ext + "@" + rest;
    RefCandidate(dir, stem, ext, rest);
    FindFileSound(s, 0);
    var m := FindFile(s, 0);
    assert m.Some?;
    RefUniqueCandidate(dir, stem, ext, rest, m.value.0, m.value.1);
  }

  lemma FileOfRef(dir: string, stem: string, ext: string, rest: string)
    ensures (dir + stem + ext + "@" + rest)[|dir|..|dir| + |stem| + |ext|] == stem + ext
  {
    var s := dir + stem + ext + "@" + rest;
    assert s == dir + (stem + ext) + ("@" + rest);
  }
}
