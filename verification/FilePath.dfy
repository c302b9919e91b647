/** Lexical paths with `/` as separator: filepath.Clean, and prefixes of cleaned paths. */
module FilePath {
  import opened Strings

  const SLASH: string := "/"

  predicate Rooted(path: string) {
    path != "" && path[0] == '/'
  }

  /** One component after the ones kept so far. */
  function Step(rooted: bool, kept: seq<string>, part: string): seq<string> {
    if part == "" || part == "." then kept
    else if part == ".." then
      if kept != [] && kept[|kept| - 1] != ".." then kept[..|kept| - 1]
      else if rooted then kept
      else kept + [".."]
    else kept + [part]
  }

  function Resolve(rooted: bool, parts: seq<string>): seq<string> {
    if parts == [] then []
    else Step(rooted, Resolve(rooted, parts[..|parts| - 1]), parts[|parts| - 1])
  }

  /** The components of the cleaned path. */
  function Components(path: string): seq<string> {
    Resolve(Rooted(path), Split(path, '/'))
  }

  /** filepath.Clean */
  function Clean(path: string): string {
    var kept := Components(path);
    if Rooted(path) then SLASH + Join(kept, SLASH)
    else if kept == [] then "."
    else Join(kept, SLASH)
  }

  // ----- what Clean leaves -----

  predicate IsName(part: string) {
    part != "" && part != "." && '/' !in part
  }

  /** Names, with `..` only in front of a relative path. */
  ghost predicate Normal(rooted: bool, kept: seq<string>) {
    && (forall part :: part in kept ==> IsName(part))
    && (rooted ==> ".." !in kept)
    && (forall i, j :: 0 <= i < j < |kept| && kept[j] == ".." ==> kept[i] == "..")
  }

  lemma StepNormal(rooted: bool, kept: seq<string>, part: string)
    requires Normal(rooted, kept) && '/' !in part
    ensures Normal(rooted, Step(rooted, kept, part))
  {
  }

  lemma {:induction false} SplitParts(s: string, sep: char)
    ensures forall part :: part in Split(s, sep) ==> sep !in part
  {
    if s != "" {
      SplitParts(s[1..], sep);
      var rest := Split(s[1..], sep);
      assert rest[0] in rest;
    }
  }

  lemma {:induction false} ResolveNormal(rooted: bool, parts: seq<string>)
    requires forall part :: part in parts ==> '/' !in part
    ensures Normal(rooted, Resolve(rooted, parts))
  {
    if parts != [] {
      ResolveNormal(rooted, parts[..|parts| - 1]);
      assert parts[|parts| - 1] in parts;
      StepNormal(rooted, Resolve(rooted, parts[..|parts| - 1]), parts[|parts| - 1]);
    }
  }

  lemma ComponentsNormal(path: string)
    ensures Normal(Rooted(path), Components(path))
  {
    SplitParts(path, '/');
    ResolveNormal(Rooted(path), Split(path, '/'));
  }

  /** The parts between the separators of a cleaned path. */
  function Shown(rooted: bool, kept: seq<string>): seq<string> {
    if kept == [] then (if rooted then ["", ""] else ["."])
    else (if rooted then [""] else []) + kept
  }

  /** Splitting a cleaned path shows its components. */
  lemma SplitClean(path: string)
    ensures Split(Clean(path), '/') == Shown(Rooted(path), Components(path))
  {
    hide Components;
    var kept := Components(path);
    ComponentsNormal(path);
    if kept == [] {
      assert Split("/", '/') == ["", ""] by {
        SplitConcat("", '/', "");
        assert "" + ['/'] + "" == "/";
      }
      SplitWithout(".", '/');
    } else {
      SplitJoin(kept, '/');
      if Rooted(path) {
        SplitConcat("", '/', Join(kept, SLASH));
        assert "" + ['/'] + Join(kept, SLASH) == Clean(path);
      }
    }
  }

  // ----- joining a name to a directory -----

  lemma ResolveSnoc(rooted: bool, parts: seq<string>, part: string)
    ensures Resolve(rooted, parts + [part]) == Step(rooted, Resolve(rooted, parts), part)
  {
    assert (parts + [part])[..|parts|] == parts;
  }

  lemma JoinedComponents(dir: string, name: string)
    requires dir != "" && IsName(name) && name != ".."
    ensures Rooted(dir + SLASH + name) == Rooted(dir)
    ensures Components(dir + SLASH + name) == Components(dir) + [name]
  {
    hide Split, Resolve;
    SplitConcat(dir, '/', name);
    SplitWithout(name, '/');
    assert dir + ['/'] + name == dir + SLASH + name;
    ResolveSnoc(Rooted(dir), Split(dir, '/'), name);
  }

  /** A name below a directory is its last component: Clean(dir/name) is Clean(dir)/name. */
  lemma JoinName(dir: string, name: string)
    requires dir != "" && IsName(name) && name != ".."
    ensures Components(dir) != [] ==> Clean(dir + SLASH + name) == Clean(dir) + SLASH + name
    ensures Components(dir) == [] ==>
              Clean(dir + SLASH + name) == (if Rooted(dir) then SLASH + name else name)
  {
    hide Components, Join, Rooted;
    JoinedComponents(dir, name);
    var kept := Components(dir);
    JoinSnoc(kept, name);
    assert SLASH + (Join(kept, SLASH) + SLASH + name) == (SLASH + Join(kept, SLASH)) + SLASH + name;
  }

  lemma {:induction false} JoinSnoc(parts: seq<string>, part: string)
    ensures Join(parts + [part], SLASH) == if parts == [] then part else Join(parts, SLASH) + SLASH + part
  {
    if |parts| == 1 {
      assert (parts + [part])[1..] == [part];
    } else if |parts| > 1 {
      assert (parts + [part])[1..] == parts[1..] + [part];
      JoinSnoc(parts[1..], part);
      assert parts[0] + SLASH + (Join(parts[1..], SLASH) + SLASH + part) == Join(parts, SLASH) + SLASH + part;
    }
  }

  /** A trailing separator changes nothing. */
  lemma TrailingSlash(dir: string, name: string)
    requires dir != "" && dir[|dir| - 1] == '/'
    requires IsName(name) && name != ".."
    ensures Rooted(dir + name) == Rooted(dir)
    ensures Components(dir + name) == Components(dir + SLASH + name)
  {
    var front := dir[..|dir| - 1];
    assert dir == front + ['/'] + "";
    assert dir + name == front + ['/'] + name;
    SplitConcat(front, '/', "");
    SplitConcat(front, '/', name);
    SplitWithout(name, '/');
    SplitWithout("", '/');
    ResolveSnoc(Rooted(dir), Split(front, '/'), "");
    ResolveSnoc(Rooted(dir), Split(front, '/'), name);
    JoinedComponents(dir, name);
  }

  // ----- cleaning twice -----

  /** Normal components resolve to themselves. */
  lemma {:induction false} ResolveAgain(rooted: bool, kept: seq<string>)
    requires Normal(rooted, kept)
    ensures Resolve(rooted, kept) == kept
  {
    if kept != [] {
      var front, last := kept[..|kept| - 1], kept[|kept| - 1];
      assert last in kept;
      assert forall part :: part in front ==> part in kept;
      ResolveAgain(rooted, front);
      assert front != [] ==> front[|front| - 1] == kept[|kept| - 2];
      assert front + [last] == kept;
      hide Normal, Resolve;
      LastStep(rooted, kept);
    }
  }

  lemma LastStep(rooted: bool, kept: seq<string>)
    requires kept != [] && Normal(rooted, kept)
    ensures Step(rooted, kept[..|kept| - 1], kept[|kept| - 1]) == kept
    ensures Resolve(rooted, kept) == Step(rooted, Resolve(rooted, kept[..|kept| - 1]), kept[|kept| - 1])
  {
    hide Resolve;
    var front, last := kept[..|kept| - 1], kept[|kept| - 1];
    assert last in kept;
    assert front != [] ==> front[|front| - 1] == kept[|kept| - 2];
    assert front + [last] == kept;
    ResolveLast(rooted, kept);
  }

  lemma ResolveLast(rooted: bool, kept: seq<string>)
    requires kept != []
    ensures Resolve(rooted, kept) == Step(rooted, Resolve(rooted, kept[..|kept| - 1]), kept[|kept| - 1])
  {
    hide Step;
  }

  lemma {:induction false} ResolveEmptyFirst(rooted: bool, parts: seq<string>)
    ensures Resolve(rooted, [""] + parts) == Resolve(rooted, parts)
  {
    var all := [""] + parts;
    if parts == [] {
      assert all == [""];
      assert Resolve(rooted, all[..0]) == [];
    } else {
      assert all[..|all| - 1] == [""] + parts[..|parts| - 1];
      ResolveEmptyFirst(rooted, parts[..|parts| - 1]);
    }
  }

  lemma RootedClean(path: string)
    ensures Rooted(Clean(path)) == Rooted(path)
  {
    ComponentsNormal(path);
    hide Components;
    var kept := Components(path);
    if !Rooted(path) && kept != [] {
      assert kept[0] in kept;
      assert kept[0] <= Join(kept, SLASH);
      assert Clean(path)[0] == kept[0][0];
    }
  }

  /** Cleaning keeps the components, so cleaning again changes nothing. */
  lemma CleanTwice(path: string)
    ensures Components(Clean(path)) == Components(path)
    ensures Clean(Clean(path)) == Clean(path)
  {
    SplitClean(path);
    RootedClean(path);
    ComponentsNormal(path);
    var rooted, kept := Rooted(path), Components(path);
    ResolveAgain(rooted, kept);
    assert Components(Clean(path)) == Resolve(rooted, Split(Clean(path), '/'));
    hide Split, Clean, Components;
    if kept != [] {
      ResolveEmptyFirst(rooted, kept);
      assert [] + kept == kept;
    } else {
      ResolveNothing(rooted);
    }
    CleanByComponents(path);
    CleanByComponents(Clean(path));
  }

  lemma ResolveNothing(rooted: bool)
    ensures Resolve(rooted, ["", ""]) == [] && Resolve(rooted, ["."]) == []
  {
    assert ["", ""][..1] == [""] && [""][..0] == [] && ["."][..0] == [];
    assert Resolve(rooted, [""]) == [];
  }

  lemma CleanByComponents(path: string)
    ensures Clean(path) == if Rooted(path) then SLASH + Join(Components(path), SLASH)
                           else if Components(path) == [] then "."
                           else Join(Components(path), SLASH)
  {
  }

  // ----- where a path leads -----

  /** One step from a place, given by its names from the top: a name goes down, `..` up; the top is its own parent. */
  function Move(at: seq<string>, part: string): seq<string> {
    if part == "" || part == "." then at
    else if part == ".." then if at == [] then [] else at[..|at| - 1]
    else at + [part]
  }

  function Walk(at: seq<string>, parts: seq<string>): seq<string> {
    if parts == [] then at else Move(Walk(at, parts[..|parts| - 1]), parts[|parts| - 1])
  }

  /** Where a path leads, for a program that runs in `cwd`. */
  function Where(cwd: seq<string>, path: string): seq<string> {
    Walk(if Rooted(path) then [] else cwd, Split(path, '/'))
  }

  lemma WalkSnoc(at: seq<string>, parts: seq<string>, part: string)
    ensures Walk(at, parts + [part]) == Move(Walk(at, parts), part)
  {
    assert (parts + [part])[..|parts|] == parts;
  }

  lemma {:induction false} WalkResolved(rooted: bool, at: seq<string>, parts: seq<string>)
    requires (rooted ==> at == []) && forall part :: part in parts ==> '/' !in part
    ensures Walk(at, Resolve(rooted, parts)) == Walk(at, parts)
  {
    if parts != [] {
      var front, last := parts[..|parts| - 1], parts[|parts| - 1];
      WalkResolved(rooted, at, front);
      ResolveNormal(rooted, front);
      StepWalks(rooted, at, Resolve(rooted, front), last);
      assert parts == front + [last];
    }
  }

  lemma StepWalks(rooted: bool, at: seq<string>, kept: seq<string>, part: string)
    requires (rooted ==> at == []) && Normal(rooted, kept)
    ensures Walk(at, Step(rooted, kept, part)) == Move(Walk(at, kept), part)
  {
    WalkSnoc(at, kept, part);
    if kept != [] {
      assert kept[|kept| - 1] in kept;
    }
  }

  lemma WhereByComponents(cwd: seq<string>, path: string)
    ensures Where(cwd, path) == Walk(if Rooted(path) then [] else cwd, Components(path))
  {
    SplitParts(path, '/');
    WalkResolved(Rooted(path), if Rooted(path) then [] else cwd, Split(path, '/'));
  }

  /** Cleaning a path does not change where it leads, wherever the program runs. */
  lemma CleanKeepsPlace(cwd: seq<string>, path: string)
    ensures Where(cwd, Clean(path)) == Where(cwd, path)
  {
    hide Walk, Clean, Components, Where;
    WhereByComponents(cwd, path);
    WhereByComponents(cwd, Clean(path));
    CleanTwice(path);
    RootedClean(path);
  }

  /** Names below a place lead down. */
  lemma {:induction false} WalkDown(at: seq<string>, names: seq<string>)
    requires forall name :: name in names ==> IsName(name) && name != ".."
    ensures Walk(at, names) == at + names
  {
    if names != [] {
      var front, last := names[..|names| - 1], names[|names| - 1];
      WalkDown(at, front);
      assert last in names && names == front + [last];
    }
  }

  lemma {:induction false} WalkOn(at: seq<string>, parts: seq<string>, more: seq<string>)
    ensures Walk(at, parts + more) == Walk(Walk(at, parts), more)
  {
    if more == [] {
      assert parts + more == parts;
    } else {
      var front, last := more[..|more| - 1], more[|more| - 1];
      WalkOn(at, parts, front);
      WalkSnoc(at, parts + front, last);
      WalkSnoc(Walk(at, parts), front, last);
      assert parts + more == parts + front + [last] && more == front + [last];
    }
  }
}
