/**
 Job work directories (internal/workdir/workdir.go): they are created under a
 temporary root, removed one by one behind a lexical guard, and swept at start.
 */
module WorkDir {
  import opened Wrappers
  import opened Strings
  import opened FilePath

  const DASH: char := '-'
  const MESH_PREFIX: string := "mesh-"

  // ----- names of job directories -----

  function Replaced(c: char): char {
    if c == '/' || c == '\\' || c == ' ' || c == ':' || c == '\0' then DASH else c
  }

  function ReplaceAll(s: string): (r: string)
    ensures |r| == |s|
    ensures forall i :: 0 <= i < |s| ==> r[i] == Replaced(s[i])
  {
    seq(|s|, i requires 0 <= i < |s| => Replaced(s[i]))
  }

  function DropDashes(s: string): (r: string)
    ensures |r| <= |s| && r == s[|s| - |r|..]
    ensures r == "" || r[0] != DASH
  {
    if s != "" && s[0] == DASH then DropDashes(s[1..]) else s
  }

  function DropLastDashes(s: string): (r: string)
    ensures r <= s
    ensures r == "" || r[|r| - 1] != DASH
  {
    if s != "" && s[|s| - 1] == DASH then DropLastDashes(s[..|s| - 1]) else s
  }

  function Sanitize(value: string): string {
    var trimmed := DropLastDashes(DropDashes(ReplaceAll(value)));
    if trimmed == "" then "job" else trimmed
  }

  predicate Forbidden(c: char) {
    c == '/' || c == '\\' || c == ' ' || c == ':' || c == '\0'
  }

  /** A sanitized id is a visible word without separators that neither starts nor ends with a dash. */
  lemma SanitizeIsClean(value: string)
    ensures Sanitize(value) != ""
    ensures forall c :: c in Sanitize(value) ==> !Forbidden(c)
    ensures Sanitize(value)[0] != DASH && Sanitize(value)[|Sanitize(value)| - 1] != DASH
  {
    var replaced := ReplaceAll(value);
    var left := DropDashes(replaced);
    var trimmed := DropLastDashes(left);
    hide ReplaceAll, DropDashes, DropLastDashes;
    assert forall c :: c in replaced ==> !Forbidden(c);
    assert forall c :: c in left ==> c in replaced;
    assert trimmed == left[..|trimmed|];
    assert forall c :: c in trimmed ==> c in left;
    assert trimmed != "" ==> trimmed[0] == left[0];
  }

  /** An id that already is such a word is kept. */
  lemma SanitizeKeeps(value: string)
    requires value != "" && forall c :: c in value ==> !Forbidden(c)
    requires value[0] != DASH && value[|value| - 1] != DASH
    ensures Sanitize(value) == value
  {
    assert forall i :: 0 <= i < |value| ==> value[i] in value;
    assert ReplaceAll(value) == value;
  }

  /** What is trimmed off an id when it stands at an end. */
  predicate Junk(c: char) {
    c in "-/\\ :\0"
  }

  /** Junk at both ends goes, separators between become dashes, all else stays; nothing left becomes `job`. */
  lemma SanitizeExactly(value: string) returns (i: nat, j: nat)
    ensures i <= j <= |value|
    ensures forall k :: 0 <= k < i || j <= k < |value| ==> Junk(value[k])
    ensures i == j ==> Sanitize(value) == "job"
    ensures i < j ==> |Sanitize(value)| == j - i && !Junk(value[i]) && !Junk(value[j - 1])
    ensures i < j ==> forall k :: i <= k < j ==>
              Sanitize(value)[k - i] == if value[k] in "/\\ :\0" then '-' else value[k]
  {
    i, j := TrimmedPart(ReplaceAll(value));
    JunkBecomesDash(value);
    hide ReplaceAll, DropDashes, DropLastDashes, Junk, Replaced;
    assert i == j ==> ReplaceAll(value)[i..j] == "";
  }

  lemma TrimmedPart(s: string) returns (i: nat, j: nat)
    ensures i <= j <= |s| && DropLastDashes(DropDashes(s)) == s[i..j]
    ensures forall k :: 0 <= k < i || j <= k < |s| ==> s[k] == DASH
    ensures i < j ==> s[i] != DASH && s[j - 1] != DASH
  {
    var left := DropDashes(s);
    var trimmed := DropLastDashes(left);
    DroppedDashes(s);
    DroppedLastDashes(left);
    hide DropDashes, DropLastDashes;
    i := |s| - |left|;
    j := i + |trimmed|;
    assert forall k :: i <= k < |s| ==> s[k] == left[k - i];
    assert trimmed == left[..|trimmed|] == s[i..j];
  }

  lemma JunkBecomesDash(value: string)
    ensures forall k :: 0 <= k < |value| ==> (Junk(value[k]) <==> ReplaceAll(value)[k] == DASH)
    ensures forall k :: 0 <= k < |value| ==>
              ReplaceAll(value)[k] == if value[k] in "/\\ :\0" then '-' else value[k]
  {
  }

  lemma {:induction false} DroppedDashes(s: string)
    ensures forall k :: 0 <= k < |s| - |DropDashes(s)| ==> s[k] == DASH
  {
    if s != "" && s[0] == DASH {
      DroppedDashes(s[1..]);
      assert forall k :: 0 < k < |s| ==> s[k] == s[1..][k - 1];
    }
  }

  lemma {:induction false} DroppedLastDashes(s: string)
    ensures forall k :: |DropLastDashes(s)| <= k < |s| ==> s[k] == DASH
  {
    if s != "" && s[|s| - 1] == DASH {
      DroppedLastDashes(s[..|s| - 1]);
    }
  }

  /** Sanitizing is final: a sanitized id is left as it is. */
  lemma SanitizeTwice(value: string)
    ensures Sanitize(Sanitize(value)) == Sanitize(value)
  {
    hide Sanitize;
    SanitizeIsClean(value);
    SanitizeKeeps(Sanitize(value));
  }

  /** The last position of c in s. */
  function LastIndex(s: string, c: char): (at: Option<nat>)
    ensures at.Some? ==> at.value < |s| && s[at.value] == c
    ensures at.None? ==> c !in s
    ensures at.Some? ==> forall i :: at.value < i < |s| ==> s[i] != c
  {
    if s == "" then None
    else if s[|s| - 1] == c then Some(|s| - 1)
    else LastIndex(s[..|s| - 1], c)
  }

  /** os.MkdirTemp puts its random digits in place of the last `*` of the pattern, or at the end. */
  function TempName(pattern: string, random: string): string {
    var star := LastIndex(pattern, '*');
    if star.None? then pattern + random
    else pattern[..star.value] + random + pattern[star.value + 1..]
  }

  function JobPattern(jobId: string): string {
    MESH_PREFIX + Sanitize(jobId) + "-"
  }

  predicate IsRandom(random: string) {
    random != "" && forall c :: c in random ==> '0' <= c <= '9'
  }

  /** The name of a job's directory shows its sanitized id, with the random part after it or in place of its last `*`. */
  lemma JobNameShowsId(jobId: string, random: string)
    ensures var id, name := Sanitize(jobId), TempName(JobPattern(jobId), random);
            && ('*' !in id ==> name == "mesh-" + id + "-" + random)
            && ('*' in id ==> exists k :: 0 <= k < |id| && id[k] == '*' && '*' !in id[k + 1..]
                                          && name == "mesh-" + id[..k] + random + id[k + 1..] + "-")
  {
    hide Sanitize, TempName;
    var id := Sanitize(jobId);
    assert '*' !in "mesh-";
    NameAround("mesh-", id, random);
  }

  lemma NameAround(head: string, id: string, random: string)
    requires '*' !in head
    ensures '*' !in id ==> TempName(head + id + "-", random) == head + id + "-" + random
    ensures '*' in id ==> exists k :: 0 <= k < |id| && id[k] == '*' && '*' !in id[k + 1..]
                                      && TempName(head + id + "-", random) == head + id[..k] + random + id[k + 1..] + "-"
  {
    var pattern := head + id + "-";
    assert forall k :: 0 <= k < |head| ==> pattern[k] == head[k];
    assert forall k :: 0 <= k < |id| ==> pattern[|head| + k] == id[k];
    assert pattern[|head| + |id|] == '-';
    var star := LastIndex(pattern, '*');
    hide LastIndex;
    if star.Some? {
      var k := star.value - |head|;
      assert 0 <= k < |id| && id[k] == '*';
      assert pattern[..star.value] == head + id[..k];
      assert pattern[star.value + 1..] == id[k + 1..] + "-";
      assert forall i :: k < i < |id| ==> id[i] == pattern[|head| + i];
      assert '*' in id;
      assert head + id[..k] + random + (id[k + 1..] + "-") == head + id[..k] + random + id[k + 1..] + "-";
    }
  }

  /** Whatever the job id, its directory is one component, and the sweep knows it by its prefix. */
  lemma JobNameIsOneComponent(jobId: string, random: string)
    requires IsRandom(random)
    ensures var name := TempName(JobPattern(jobId), random);
            IsName(name) && name != ".." && HasPrefix(name, MESH_PREFIX)
  {
    SanitizeIsClean(jobId);
    hide Sanitize;
    var pattern := JobPattern(jobId);
    var name := TempName(pattern, random);
    assert '/' !in pattern;
    assert forall i :: 0 <= i < |MESH_PREFIX| ==> pattern[i] == MESH_PREFIX[i] && pattern[i] != '*';
    var star := LastIndex(pattern, '*');
    if star.Some? {
      assert star.value >= |MESH_PREFIX|;
      assert forall c :: c in pattern[..star.value] ==> c in pattern;
      assert forall c :: c in pattern[star.value + 1..] ==> c in pattern;
    }
    assert '/' !in name;
    assert name[..|MESH_PREFIX|] == MESH_PREFIX;
    assert name[0] == 'm';
  }

  // ----- the guard -----

  /** CleanupJobWorkDir's test before anything is removed. */
  predicate Guarded(root: string, path: string) {
    HasPrefix(Clean(path), Clean(root) + SLASH)
  }

  /** Strictly inside the root: its components, then at least one more, and no way back up. */
  ghost predicate Below(root: string, path: string) {
    && Rooted(path) == Rooted(root)
    && Components(root) < Components(path)
    && ".." !in Components(path)[|Components(root)|..]
  }

  /** A cleaned root that is nothing but the way up from where the program runs. */
  predicate ClimbsOut(root: string) {
    Components(root) != [] && Components(root)[|Components(root)| - 1] == ".."
  }

  lemma GuardedParts(root: string, path: string)
    requires Guarded(root, path)
    ensures exists rest :: |rest| >= 1 && Split(Clean(path), '/') == Split(Clean(root), '/') + rest
  {
    hide Clean;
    var rest := Clean(path)[|Clean(root)| + 1..];
    assert Clean(path) == Clean(root) + ['/'] + rest;
    SplitConcat(Clean(root), '/', rest);
  }

  /** Neither "//" nor "./" starts a cleaned path: no component is empty or a dot. */
  lemma ShownPrefix(rooted: bool, r: seq<string>, rooted': bool, p: seq<string>, rest: seq<string>)
    requires forall i :: 0 <= i < |p| ==> p[i] != "" && p[i] != "."
    requires r != [] ==> r[0] != ""
    requires |rest| >= 1 && Shown(rooted', p) == Shown(rooted, r) + rest
    ensures r != [] && rooted == rooted' && p == r + rest
  {
    var shown := Shown(rooted', p);
    assert shown[0] == Shown(rooted, r)[0];
    assert |shown| >= (if rooted then 3 else 2);
    assert p != [] && rooted == (shown[0] == "") == rooted';
    if rooted {
      assert shown[1] == p[0];
      assert (Shown(rooted, r) + rest)[1..] == Shown(rooted, r)[1..] + rest;
      assert shown[1..] == p;
    } else {
      assert shown == p;
    }
  }

  lemma NormalParts(rooted: bool, kept: seq<string>)
    requires Normal(rooted, kept)
    ensures forall i :: 0 <= i < |kept| ==> kept[i] != "" && kept[i] != "."
  {
    forall i | 0 <= i < |kept| ensures kept[i] != "" && kept[i] != "." {
      assert kept[i] in kept;
    }
  }

  lemma PartsAreComponents(root: string, path: string, rest: seq<string>)
    requires |rest| >= 1 && Split(Clean(path), '/') == Split(Clean(root), '/') + rest
    ensures Components(root) != []
    ensures Rooted(path) == Rooted(root)
    ensures Components(path) == Components(root) + rest
  {
    SplitClean(root);
    SplitClean(path);
    ComponentsNormal(root);
    ComponentsNormal(path);
    hide Clean, Components, Split, Shown;
    NormalParts(Rooted(root), Components(root));
    NormalParts(Rooted(path), Components(path));
    ShownPrefix(Rooted(root), Components(root), Rooted(path), Components(path), rest);
  }

  /** An accepted path is inside the root, unless it leads up from a root that only leads up. */
  lemma GuardedIsBelow(root: string, path: string)
    requires Guarded(root, path) && !ClimbsOut(root)
    ensures Below(root, path)
  {
    GuardedParts(root, path);
    var rest :| |rest| >= 1 && Split(Clean(path), '/') == Split(Clean(root), '/') + rest;
    PartsAreComponents(root, path, rest);
    ComponentsNormal(path);
    hide Clean, Split, Components, IsName;
    OnlyInFront(Components(root), Components(path), rest, "..");
  }

  lemma {:induction false} JoinConcat(parts: seq<string>, more: seq<string>)
    requires parts != [] && more != []
    ensures Join(parts + more, SLASH) == Join(parts, SLASH) + SLASH + Join(more, SLASH)
  {
    assert (parts + more)[1..] == parts[1..] + more;
    if |parts| == 1 {
      assert parts[1..] + more == more;
    } else {
      JoinConcat(parts[1..], more);
    }
  }

  lemma LongerIsGuarded(root: string, path: string)
    requires Components(root) != [] && Rooted(path) == Rooted(root) && Components(root) < Components(path)
    ensures Guarded(root, path)
  {
    CleanByComponents(root);
    CleanByComponents(path);
    var r, rest := Components(root), Components(path)[|Components(root)|..];
    assert Components(path) == r + rest;
    JoinConcat(r, rest);
    hide Clean, Components, Join;
    var front := if Rooted(root) then SLASH else "";
    assert Clean(root) == front + Join(r, SLASH);
    assert Clean(path) == Clean(root) + SLASH + Join(rest, SLASH);
  }

  /**
   What the guard accepts: the paths whose components go on from those of the root,
   at any depth; nothing at all for a root that cleans to `/` or `.`.
   */
  lemma GuardedExactly(root: string, path: string)
    ensures Guarded(root, path) <==>
              Components(root) != [] && Rooted(path) == Rooted(root) && Components(root) < Components(path)
  {
    hide Clean, Components;
    if Guarded(root, path) {
      GuardedParts(root, path);
      var rest :| |rest| >= 1 && Split(Clean(path), '/') == Split(Clean(root), '/') + rest;
      PartsAreComponents(root, path, rest);
    }
    if Components(root) != [] && Rooted(path) == Rooted(root) && Components(root) < Components(path) {
      LongerIsGuarded(root, path);
    }
  }

  /** An element that stands in front only is not behind another one. */
  lemma OnlyInFront<T>(r: seq<T>, p: seq<T>, rest: seq<T>, up: T)
    requires r != [] && rest != [] && p == r + rest && r[|r| - 1] != up
    requires forall i, j :: 0 <= i < j < |p| && p[j] == up ==> p[i] == up
    ensures r < p && up !in p[|r|..]
  {
    forall j | 0 <= j < |rest| ensures rest[j] != up {
      assert p[|r| + j] == rest[j];
      assert p[|r| - 1] == r[|r| - 1];
    }
    assert p[|r|..] == rest;
  }

  lemma ClimbingRoot(root: string)
    requires ClimbsOut(root)
    ensures !Rooted(root) && !Rooted(Clean(root)) && Clean(root) != "" && Components(Clean(root)) == Components(root)
  {
    ComponentsNormal(root);
    RootedClean(root);
    CleanTwice(root);
    CleanByComponents(root);
    var r := Components(root);
    assert r[|r| - 1] in r;
    hide Clean, Components;
    assert r == r[..|r| - 1] + [r[|r| - 1]];
    JoinSnoc(r[..|r| - 1], r[|r| - 1]);
  }

  /** Going up from where the last step went up. */
  lemma OneMoreUp(dir: string)
    requires dir != "" && !Rooted(dir) && ClimbsOut(dir)
    ensures !Rooted(dir + "/..") && Components(dir + "/..") == Components(dir) + [".."]
  {
    hide Split, Resolve;
    SplitConcat(dir, '/', "..");
    SplitWithout("..", '/');
    assert dir + ['/'] + ".." == dir + "/..";
    ResolveSnoc(false, Split(dir, '/'), "..");
  }

  /** For a root that only leads up, the guard lets the next step up through. */
  lemma ClimbingRootLeaks(root: string)
    requires ClimbsOut(root)
    ensures Guarded(root, Clean(root) + "/..")
    ensures !Below(root, Clean(root) + "/..")
  {
    var path := Clean(root) + "/..";
    var r := Components(root);
    ClimbingRoot(root);
    CleanByComponents(root);
    hide Clean, Components;
    OneMoreUp(Clean(root));
    CleanByComponents(path);
    JoinSnoc(r, "..");
    assert Clean(path) == Clean(root) + SLASH + "..";
    assert Components(path)[|r|..] == [".."];
  }

  /** Everything the guard accepts is inside the root. */
  ghost predicate Contains(root: string) {
    forall path :: Guarded(root, path) ==> Below(root, path)
  }

  /** The guard confines removals to the root exactly for the roots that do not end in `..`; all absolute ones. */
  lemma ContainsExactly(root: string)
    ensures Contains(root) <==> !ClimbsOut(root)
    ensures Rooted(root) ==> !ClimbsOut(root)
  {
    RootedStaysIn(root);
    hide Guarded, Below, ClimbsOut, Rooted;
    if ClimbsOut(root) {
      ClimbingRootLeaks(root);
    } else {
      forall path | Guarded(root, path) ensures Below(root, path) {
        GuardedIsBelow(root, path);
      }
    }
  }

  lemma RootedStaysIn(root: string)
    ensures Rooted(root) ==> !ClimbsOut(root)
  {
    ComponentsNormal(root);
    hide Components;
    if ClimbsOut(root) {
      assert Components(root)[|Components(root)| - 1] in Components(root);
    }
  }

  /** Everything the guard accepts leads strictly below where the root leads, wherever the program runs. */
  ghost predicate Confines(root: string) {
    forall path, cwd :: Guarded(root, path) ==> Where(cwd, root) < Where(cwd, path)
  }

  lemma BelowIsInside(root: string, path: string, cwd: seq<string>)
    requires Below(root, path)
    ensures Where(cwd, root) < Where(cwd, path)
  {
    var r, p := Components(root), Components(path);
    ComponentsNormal(path);
    WhereByComponents(cwd, root);
    WhereByComponents(cwd, path);
    hide Components, Where, Walk;
    var at := if Rooted(root) then [] else cwd;
    assert p == r + p[|r|..];
    WalkOn(at, r, p[|r|..]);
    WalkDown(Walk(at, r), p[|r|..]);
  }

  /** The guard confines removals to what is below the root exactly for the roots whose last step does not go up. */
  lemma ConfinesExactly(root: string)
    ensures Confines(root) <==> !ClimbsOut(root)
  {
    hide Guarded, ClimbsOut, Below, Where;
    if !ClimbsOut(root) {
      forall path, cwd | Guarded(root, path) ensures Where(cwd, root) < Where(cwd, path) {
        GuardedIsBelow(root, path);
        BelowIsInside(root, path, cwd);
      }
    } else {
      ClimbingRootLeaks(root);
      LeadsUp(root, []);
    }
  }

  lemma LeadsUp(root: string, cwd: seq<string>)
    requires ClimbsOut(root)
    ensures !(Where(cwd, root) < Where(cwd, Clean(root) + "/.."))
  {
    var path := Clean(root) + "/..";
    ClimbingRoot(root);
    hide Clean, Components;
    OneMoreUp(Clean(root));
    WhereByComponents(cwd, root);
    WhereByComponents(cwd, path);
    hide Where, Walk;
    WalkSnoc(cwd, Components(root), "..");
  }

  // ----- directories that are created -----

  /** os.MkdirTemp's path: the directory as given, one separator, the name. */
  function JoinPath(dir: string, name: string): string {
    if dir != "" && dir[|dir| - 1] == '/' then dir + name else dir + SLASH + name
  }

  function JobDir(root: string, jobId: string, random: string): string {
    JoinPath(root, TempName(JobPattern(jobId), random))
  }

  lemma JobDirComponents(root: string, jobId: string, random: string)
    requires root != "" && IsRandom(random)
    ensures var dir := JobDir(root, jobId, random);
            var name := TempName(JobPattern(jobId), random);
            && Rooted(dir) == Rooted(root) && Components(dir) == Components(root) + [name]
            && Clean(dir) == Clean(root + SLASH + name)
  {
    JobNameIsOneComponent(jobId, random);
    hide Components, Split, TempName, JobPattern;
    var name := TempName(JobPattern(jobId), random);
    JoinedComponents(root, name);
    if root[|root| - 1] == '/' {
      TrailingSlash(root, name);
    }
  }

  lemma JobDirGuarded(root: string, jobId: string, random: string)
    requires root != "" && IsRandom(random)
    ensures Guarded(root, JobDir(root, jobId, random)) <==> Components(root) != []
  {
    JobNameIsOneComponent(jobId, random);
    JobDirComponents(root, jobId, random);
    hide Components, Split, TempName, JobPattern, JobDir, Clean;
    var name := TempName(JobPattern(jobId), random);
    var dir := JobDir(root, jobId, random);
    JoinName(root, name);
    if Guarded(root, dir) {
      GuardedParts(root, dir);
      var rest :| |rest| >= 1 && Split(Clean(dir), '/') == Split(Clean(root), '/') + rest;
      PartsAreComponents(root, dir, rest);
    }
  }

  /** Every directory made for any job is one the guard will let go again. */
  ghost predicate Releases(root: string) {
    forall jobId, random :: IsRandom(random) ==> Guarded(root, JobDir(root, jobId, random))
  }

  /** The guard accepts the program's own directories exactly when the root is neither `/` nor the current directory. */
  lemma ReleasesExactly(root: string)
    requires root != ""
    ensures Releases(root) <==> Clean(root) != SLASH && Clean(root) != "."
  {
    forall jobId, random | IsRandom(random)
      ensures Guarded(root, JobDir(root, jobId, random)) <==> Components(root) != []
    {
      JobDirGuarded(root, jobId, random);
    }
    assert IsRandom("0");
    assert Guarded(root, JobDir(root, "", "0")) <==> Components(root) != [];
    NothingLeft(root);
  }

  lemma NothingLeft(root: string)
    ensures Components(root) == [] <==> Clean(root) == SLASH || Clean(root) == "."
  {
    SplitClean(root);
    ComponentsNormal(root);
    assert Components(root) == [] ==> Clean(root) == (if Rooted(root) then SLASH else ".");
    hide Components, Clean;
    var r := Components(root);
    assert r == [] || (r[0] in r && r[|r| - 1] in r);
    SplitConcat("", '/', "");
    SplitWithout("", '/');
    assert "" + ['/'] + "" == SLASH;
    SplitWithout(".", '/');
  }

  // ----- the file system below the root -----

  datatype Error = OutsideRoot | Missing | Failed

  /** The entry of the root that a path is, if it is one. */
  function EntryOf(root: string, path: string): Option<string> {
    var r, p := Components(root), Components(path);
    if Rooted(path) == Rooted(root) && |p| == |r| + 1 && r <= p then Some(p[|r|]) else None
  }

  /**
   What the operating system holds in the root, and the paths handed to
   os.RemoveAll so far. Any call may fail; a failed removal leaves the entry.
   */
  class FileSystem {
    const root: string
    const present: bool             // whether the root exists
    var entries: map<string, bool>  // whether the entry is a directory
    var removals: seq<string>
    ghost var failures: nat         // how many calls have failed so far

    ghost predicate Valid()
      reads this
    {
      && root != ""
      && (!present ==> entries == map[])
      && forall name :: name in entries ==> IsName(name) && name != ".."
    }

    constructor (root: string, present: bool)
      requires root != ""
      ensures this.root == root && this.present == present
      ensures entries == map[] && removals == [] && failures == 0 && Valid()
    {
      this.root, this.present, entries, removals := root, present, map[], [];
      failures := 0;
    }

    /** A new directory named after the pattern and its random part. */
    ghost predicate Made(before: map<string, bool>, pattern: string, random: string,
                         after: map<string, bool>, path: string)
    {
      var name := TempName(pattern, random);
      IsRandom(random) && name !in before && after == before[name := true] && path == JoinPath(root, name)
    }

    method MkdirTemp(pattern: string) returns (r: Result<string, Error>, ghost random: string)
      modifies this`entries, this`failures
      ensures r.Failure? ==> entries == old(entries)
      ensures failures == old(failures) + if r.Failure? then 1 else 0
      ensures r.Success? ==> present && Made(old(entries), pattern, random, entries, r.value)
    {
      var digits: string := *;
      random := digits;
      if !present || !IsRandom(digits) || TempName(pattern, digits) in entries {
        failures := failures + 1;
        return Failure(Failed), random;
      }
      entries := entries[TempName(pattern, digits) := true];
      r := Success(JoinPath(root, TempName(pattern, digits)));
    }

    /** The entries in some order; the root itself may be missing or unreadable. */
    method ReadDir() returns (r: Result<seq<string>, Error>)
      modifies this`failures
      ensures failures == old(failures) + if present && r.Failure? then 1 else 0
      ensures r.Success? ==> forall name :: name in r.value <==> name in entries
      ensures r.Success? ==> forall i, j :: 0 <= i < j < |r.value| ==> r.value[i] != r.value[j]
      ensures r.Failure? ==> r.error == if present then Failed else Missing
      ensures !present ==> r.Failure?
    {
      var failed: bool := *;
      if !present {
        return Failure(Missing);
      }
      if failed {
        failures := failures + 1;
        return Failure(Failed);
      }
      var names: seq<string> := [];
      var left := entries.Keys;
      while left != {}
        invariant left <= entries.Keys
        invariant forall name :: name in names <==> name in entries.Keys - left
        invariant forall i, j :: 0 <= i < j < |names| ==> names[i] != names[j]
        decreases |left|
      {
        var name :| name in left;
        assert name !in names;
        names := names + [name];
        left := left - {name};
      }
      return Success(names);
    }

    /** os.RemoveAll: everything at and below the path. */
    method RemoveAll(path: string) returns (ok: bool)
      modifies this
      ensures removals == old(removals) + [path]
      ensures failures == old(failures) + if ok then 0 else 1
      ensures entries == if ok && EntryOf(root, path).Some? then old(entries) - {EntryOf(root, path).value}
                         else old(entries)
    {
      removals := removals + [path];
      ok := *;
      failures := failures + if ok then 0 else 1;
      var entry := EntryOf(root, path);
      if ok && entry.Some? {
        entries := entries - {entry.value};
      }
    }
  }

  /** filepath.Join(root, name) */
  function Joined(root: string, name: string): string {
    Clean(root + SLASH + name)
  }

  lemma EntryOfJoined(root: string, name: string)
    requires root != "" && IsName(name) && name != ".."
    ensures EntryOf(root, Joined(root, name)) == Some(name)
  {
    JoinedComponents(root, name);
    CleanTwice(root + SLASH + name);
    RootedClean(root + SLASH + name);
  }

  lemma EntryOfJobDir(root: string, jobId: string, random: string)
    requires root != "" && IsRandom(random)
    ensures EntryOf(root, JobDir(root, jobId, random)) == Some(TempName(JobPattern(jobId), random))
  {
    hide Components, TempName, JobPattern, JobDir;
    JobDirComponents(root, jobId, random);
  }

  /** What the sweep at start takes away. */
  predicate Stale(name: string, isDirectory: bool) {
    isDirectory && HasPrefix(name, MESH_PREFIX)
  }

  ghost predicate IsStale(entries: map<string, bool>, name: string) {
    name in entries && entries[name] && HasPrefix(name, "mesh-")
  }

  function StaleNames(entries: map<string, bool>): set<string> {
    set name | name in entries && Stale(name, entries[name])
  }

  lemma StaleMeans(entries: map<string, bool>)
    ensures forall name :: name in StaleNames(entries) <==> IsStale(entries, name)
  {
  }

  /** The stale ones of some names. */
  function StaleAmong(entries: map<string, bool>, names: seq<string>): set<string> {
    set name | name in names && name in entries && Stale(name, entries[name])
  }

  lemma StaleAmongOnly(entries: map<string, bool>, names: seq<string>)
    ensures StaleAmong(entries, names) <= StaleNames(entries) <= entries.Keys
    ensures forall name :: name in StaleAmong(entries, names) ==> name in names
  {
  }

  lemma RemovedOneMore(entries: map<string, bool>, gone: set<string>, name: string)
    requires name !in gone
    ensures entries - gone - {name} == entries - (gone + {name})
    ensures |gone + {name}| == |gone| + 1
  {
  }

  lemma NoneStale(entries: map<string, bool>)
    ensures StaleAmong(entries, []) == {} && StaleNames(entries) <= entries.Keys
  {
  }

  lemma AllStale(entries: map<string, bool>, names: seq<string>)
    requires forall name :: name in names <==> name in entries
    ensures StaleAmong(entries, names) == StaleNames(entries)
  {
  }

  lemma StaleAmongSnoc(entries: map<string, bool>, names: seq<string>, name: string)
    requires name in entries
    ensures StaleAmong(entries, names + [name])
         == StaleAmong(entries, names) + (if Stale(name, entries[name]) then {name} else {})
  {
    hide Stale;
  }

  /** The temporary root of one program, with the file system it lives in. */
  class Manager {
    const root: string
    const files: FileSystem

    ghost predicate Valid()
      reads this, files
    {
      files.root == root && files.Valid()
    }

    constructor (files: FileSystem)
      requires files.Valid()
      ensures Valid() && this.files == files
    {
      this.root, this.files := files.root, files;
    }

    /** The new directory is one the guard and the sweep recognise. */
    method CreateJobWorkDir(jobId: string) returns (r: Result<string, Error>)
      requires Valid()
      modifies files
      ensures Valid() && files.removals == old(files.removals)
      ensures r.Failure? ==> files.entries == old(files.entries)
      ensures r.Failure? <==> files.failures == old(files.failures) + 1
      ensures r.Success? ==> exists random :: IsRandom(random) && r.value == JobDir(root, jobId, random)
      ensures r.Success? ==>
                exists name ::
                  && EntryOf(root, r.value) == Some(name) && name !in old(files.entries)
                  && files.entries == old(files.entries)[name := true] && Stale(name, true)
      ensures r.Success? ==> (Guarded(root, r.value) <==> Clean(root) != SLASH && Clean(root) != ".")
    {
      var pattern := JobPattern(jobId);
      ghost var random;
      r, random := files.MkdirTemp(pattern);
      if r.Success? {
        hide Clean, Components, TempName, JobPattern, Guarded, IsName;
        ghost var name := TempName(pattern, random);
        JobNameIsOneComponent(jobId, random);
        EntryOfJobDir(root, jobId, random);
        JobDirGuarded(root, jobId, random);
        NothingLeft(root);
        assert EntryOf(root, r.value) == Some(name) && Stale(name, true);
        assert r.value == JobDir(root, jobId, random);
      }
    }

    /** Nothing is removed unless the guard accepts the path, and then only what is below it. */
    method CleanupJobWorkDir(path: string) returns (error: Option<Error>)
      requires Valid()
      modifies files
      ensures Valid()
      ensures !Guarded(root, path) ==>
                error == Some(OutsideRoot)
                && files.removals == old(files.removals) && files.entries == old(files.entries)
      ensures Guarded(root, path) ==>
                (error == None || error == Some(Failed)) && files.removals == old(files.removals) + [path]
      ensures Guarded(root, path) ==> (error == None <==> files.failures == old(files.failures))
      ensures error == None && EntryOf(root, path).Some? ==>
                files.entries == old(files.entries) - {EntryOf(root, path).value}
      ensures error != None ==> files.entries == old(files.entries)
    {
      if !Guarded(root, path) {
        return Some(OutsideRoot);
      }
      var ok := files.RemoveAll(path);
      return if ok then None else Some(Failed);
    }

    method RemoveEntry(name: string) returns (ok: bool)
      requires Valid() && name in files.entries
      modifies files
      ensures Valid()
      ensures files.entries == if ok then old(files.entries) - {name} else old(files.entries)
      ensures files.failures == old(files.failures) + if ok then 0 else 1
    {
      hide Clean, Components, IsName;
      EntryOfJoined(root, name);
      ok := files.RemoveAll(Joined(root, name));
    }

    /**
     Takes away stale directories only: all of them, unless listing the root or
     removing one of them fails; then those before.
     */
    method CleanupStaleWorkDirs() returns (removed: nat, error: Option<Error>, ghost gone: set<string>)
      requires Valid()
      modifies files
      ensures Valid()
      ensures files.entries == old(files.entries) - gone && removed == |gone|
      ensures forall name :: name in gone ==> IsStale(old(files.entries), name)
      ensures error == None ==> forall name :: IsStale(old(files.entries), name) ==> name in gone
      ensures files.failures == old(files.failures) + if error == None then 0 else 1
    {
      assert !files.present ==> files.entries == map[];
      hide StaleAmong, StaleNames, IsStale, FileSystem.Valid, HasPrefix;
      ghost var before := files.entries;
      removed, error, gone := 0, None, {};
      NoneStale(before);
      StaleMeans(before);
      var names := files.ReadDir();
      if names.Failure? {
        error := if names.error == Missing then None else Some(names.error);
        return;
      }
      for i := 0 to |names.value|
        invariant Valid()
        invariant gone == StaleAmong(before, names.value[..i])
        invariant files.entries == before - gone && removed == |gone|
        invariant files.failures == old(files.failures) && error == None
      {
        var name := names.value[i];
        assert name in names.value && name !in names.value[..i];
        StaleAmongOnly(before, names.value[..i]);
        StaleAmongSnoc(before, names.value[..i], name);
        assert names.value[..i + 1] == names.value[..i] + [name];
        if !files.entries[name] || !HasPrefix(name, MESH_PREFIX) {
          continue;
        }
        var ok := RemoveEntry(name);
        if !ok {
          error := Some(Failed);
          return;
        }
        RemovedOneMore(before, gone, name);
        removed := removed + 1;
        gone := gone + {name};
      }
      assert names.value[..|names.value|] == names.value;
      AllStale(before, names.value);
    }
  }
}
