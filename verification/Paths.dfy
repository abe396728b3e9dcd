/** Path strings of phase6_fs.go: splitting, the components that count, and joining. */
module Paths {

  /** strings.Split(s, "/") */
  function Split(s: string): (r: seq<string>)
    ensures |r| >= 1
  {
    if s == "" then [""]
    else
      var rest := Split(s[1..]);
      if s[0] == '/' then [""] + rest else [[s[0]] + rest[0]] + rest[1..]
  }

  predicate Counts(part: string) {
    part != "" && part != "."
  }

  function Keep(parts: seq<string>): seq<string> {
    if parts == [] then [] else (if Counts(parts[0]) then [parts[0]] else []) + Keep(parts[1..])
  }

  /** fsSplitPath */
  function Components(path: string): seq<string> {
    if path == "" then [] else Keep(Split(path))
  }

  /** strings.Join(parts, "/") */
  function Join(parts: seq<string>): string {
    if parts == [] then "" else if |parts| == 1 then parts[0] else parts[0] + "/" + Join(parts[1..])
  }

  predicate Absolute(path: string) {
    path != "" && path[0] == '/'
  }

  /** A name that can be the component of a path. */
  predicate IsName(part: string) {
    Counts(part) && '/' !in part
  }

  lemma {:induction false} SplitAtSlash(p: string, rest: string)
    requires '/' !in p
    ensures Split(p + "/" + rest) == [p] + Split(rest)
  {
    if p == "" {
      assert (p + "/" + rest)[1..] == rest;
    } else {
      SplitAtSlash(p[1..], rest);
      assert (p + "/" + rest)[1..] == p[1..] + "/" + rest;
      assert [p[0]] + p[1..] == p;
    }
  }

  lemma {:induction false} SplitName(p: string)
    requires '/' !in p
    ensures Split(p) == [p]
  {
    if p != "" {
      SplitName(p[1..]);
      assert [p[0]] + p[1..] == p;
    }
  }

  /** Splitting what was joined gives back the same components. */
  lemma {:induction false} JoinThenSplit(parts: seq<string>)
    requires forall i | 0 <= i < |parts| :: IsName(parts[i])
    ensures Components(Join(parts)) == parts
    ensures parts != [] ==> Join(parts) != "" && Join(parts)[0] != '/'
  {
    if |parts| == 1 {
      SplitName(parts[0]);
      assert Keep([parts[0]]) == [parts[0]] + Keep([]);
    } else if |parts| > 1 {
      forall i | 0 <= i < |parts[1..]| ensures IsName(parts[1..][i]) {
        assert parts[1..][i] == parts[i + 1];
      }
      JoinThenSplit(parts[1..]);
      SplitAtSlash(parts[0], Join(parts[1..]));
      assert ([parts[0]] + Split(Join(parts[1..])))[1..] == Split(Join(parts[1..]));
    }
  }

  lemma {:induction false} SplitConcat(p: string, q: string)
    ensures Split(p + "/" + q) == Split(p) + Split(q)
  {
    if p == "" {
      assert (p + "/" + q)[1..] == q;
    } else {
      SplitConcat(p[1..], q);
      assert (p + "/" + q)[1..] == p[1..] + "/" + q;
      SplitFirst(p, Split(p[1..]), Split(q));
    }
  }

  /** The first part grows before or after another split is appended. */
  lemma SplitFirst(p: string, rest: seq<string>, more: seq<string>)
    requires p != "" && |rest| >= 1
    ensures [[p[0]] + (rest + more)[0]] + (rest + more)[1..] == [[p[0]] + rest[0]] + rest[1..] + more
    ensures [""] + (rest + more) == [""] + rest + more
  {
  }

  lemma {:induction false} KeepConcat(parts: seq<string>, more: seq<string>)
    ensures Keep(parts + more) == Keep(parts) + Keep(more)
  {
    if parts == [] {
      assert parts + more == more;
    } else {
      KeepConcat(parts[1..], more);
      assert (parts + more)[1..] == parts[1..] + more;
      KeepFirst(parts[0], Keep(parts[1..]), Keep(more));
    }
  }

  lemma KeepFirst(part: string, rest: seq<string>, more: seq<string>)
    ensures var first := if Counts(part) then [part] else []; first + (rest + more) == first + rest + more
  {
  }

  /** The components of a path are those before and those after any of its slashes. */
  lemma ComponentsConcat(p: string, q: string)
    ensures Components(p + "/" + q) == Components(p) + Components(q)
  {
    SplitConcat(p, q);
    KeepConcat(Split(p), Split(q));
    EmptyKeepsNothing();
  }

  lemma EmptyKeepsNothing()
    ensures Keep(Split("")) == []
  {
    assert Keep([""]) == Keep([""][1..]);
  }

  /** A path without a slash has one component, itself, unless it is empty or a dot. With ComponentsConcat this says
      what the components of every path are. */
  lemma ComponentsOfName(p: string)
    requires '/' !in p
    ensures Components(p) == if p == "" || p == "." then [] else [p]
  {
    SplitName(p);
    assert Keep([p]) == (if Counts(p) then [p] else []) + Keep([p][1..]);
  }

  /** A leading slash adds no component. */
  lemma LeadingSlash(path: string)
    ensures Components("/" + path) == Components(path)
  {
    SplitAtSlash("", path);
    assert "" + "/" + path == "/" + path;
    assert Keep([""] + Split(path)) == Keep(Split(path)) by {
      assert ([""] + Split(path))[1..] == Split(path);
    }
    if path == "" {
      assert Split(path) == [""];
      assert Keep([""]) == Keep([""][1..]);
    }
  }

  lemma {:induction false} SplitPartsHaveNoSlash(s: string)
    ensures forall i | 0 <= i < |Split(s)| :: '/' !in Split(s)[i]
  {
    if s != "" {
      SplitPartsHaveNoSlash(s[1..]);
    }
  }

  lemma {:induction false} KeepKeeps(parts: seq<string>)
    requires forall i | 0 <= i < |parts| :: '/' !in parts[i]
    ensures forall i | 0 <= i < |Keep(parts)| :: IsName(Keep(parts)[i])
  {
    if parts != [] {
      KeepKeeps(parts[1..]);
    }
  }

  /** Every component is a name. */
  lemma ComponentsAreNames(path: string)
    ensures forall i | 0 <= i < |Components(path)| :: IsName(Components(path)[i])
  {
    SplitPartsHaveNoSlash(path);
    KeepKeeps(Split(path));
  }

  /** fsResolveParent's parent path: the same path without its last component. */
  function ParentPath(path: string, parts: seq<string>): string
    requires parts != []
  {
    if |parts| > 1 then (if Absolute(path) then "/" else "") + Join(parts[..|parts| - 1])
    else if Absolute(path) then "/" else "."
  }

  /** The parent path starts from the same directory and has all components but the last. */
  lemma ParentPathDropsLast(path: string)
    requires Components(path) != []
    ensures var parts := Components(path); var parent := ParentPath(path, parts);
            && parent != "" && Absolute(parent) == Absolute(path)
            && Components(parent) == parts[..|parts| - 1]
  {
    var parts := Components(path);
    var front := parts[..|parts| - 1];
    ComponentsAreNames(path);
    JoinThenSplit(front);
    LeadingSlash(Join(front));
    if |parts| == 1 {
      assert front == [];
      SlashHasNoComponents();
      DotHasNoComponents();
    } else {
      assert "" + Join(front) == Join(front);
    }
  }

  lemma SlashHasNoComponents()
    ensures Components("/") == []
  {
    LeadingSlash("");
    assert "/" + "" == "/";
    assert Components("") == [];
  }

  lemma DotHasNoComponents()
    ensures Components(".") == [] && !Absolute(".")
  {
    SplitName(".");
    assert Keep(["."]) == Keep(["."][1..]) == [];
  }
}
