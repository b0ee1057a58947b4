/** Slash-separated path strings: splitting, joining, lexical cleaning and the
    operations of Go's `path` package that the shell relies on.  A path is a
    plain string; the lemmas here move between strings and component lists. */
module Paths {

  /** The components between the slashes of s; never empty. */
  function Split(s: string): (cs: seq<string>)
    ensures |cs| > 0
    ensures forall c :: c in cs ==> '/' !in c
  {
    if s == "" then [""] else Prepend(s[0], Split(s[1..]))
  }

  /** One more character in front: a new component, or more of the first one. */
  function Prepend(c: char, cs: seq<string>): (r: seq<string>)
    requires |cs| > 0 && forall d :: d in cs ==> '/' !in d
    ensures |r| > 0 && forall d :: d in r ==> '/' !in d
  {
    if c == '/' then [""] + cs else [[c] + cs[0]] + cs[1..]
  }

  function Join(cs: seq<string>): string
    requires |cs| > 0
  {
    if |cs| == 1 then cs[0] else cs[0] + "/" + Join(cs[1..])
  }

  lemma {:induction false} JoinSplit(s: string)
    ensures Join(Split(s)) == s
  {
    if s != "" {
      JoinSplit(s[1..]);
      var rest := Split(s[1..]);
      assert s == [s[0]] + s[1..];
      if s[0] == '/' {
        assert ([""] + rest)[1..] == rest;
      } else {
        assert Split(s)[1..] == rest[1..];
      }
    }
  }

  lemma SplitCons(c: char, s: string)
    ensures Split([c] + s) == Prepend(c, Split(s))
  {
    assert ([c] + s)[1..] == s;
  }

  lemma PrependAppend(c: char, xs: seq<string>, ys: seq<string>)
    requires |xs| > 0 && forall d :: d in xs + ys ==> '/' !in d
    ensures (forall d :: d in xs ==> '/' !in d) && Prepend(c, xs + ys) == Prepend(c, xs) + ys
  {
    assert forall d :: d in xs ==> d in xs + ys;
    assert (xs + ys)[1..] == xs[1..] + ys;
  }

  lemma {:induction false} SplitAppend(a: string, b: string)
    ensures Split(a + "/" + b) == Split(a) + Split(b)
  {
    if a == "" {
      assert "" + "/" + b == ['/'] + b;
      SplitCons('/', b);
    } else {
      hide Split, Prepend;
      var c, t := a[0], a[1..];
      SplitAppend(t, b);
      SplitCons(c, t);
      SplitCons(c, t + "/" + b);
      PrependAppend(c, Split(t), Split(b));
      assert a == [c] + t && a + "/" + b == [c] + (t + "/" + b);
    }
  }

  lemma {:induction false} SplitPlain(c: string)
    requires '/' !in c
    ensures Split(c) == [c]
  {
    if c != "" {
      SplitPlain(c[1..]);
      assert [c[0]] + c[1..] == c;
    }
  }

  lemma {:induction false} SplitJoin(cs: seq<string>)
    requires |cs| > 0 && forall c :: c in cs ==> '/' !in c
    ensures Split(Join(cs)) == cs
  {
    SplitPlain(cs[0]);
    if |cs| > 1 {
      SplitJoin(cs[1..]);
      SplitAppend(cs[0], Join(cs[1..]));
      assert cs == [cs[0]] + cs[1..];
    }
  }

  lemma {:induction false} JoinAppend(xs: seq<string>, ys: seq<string>)
    requires |xs| > 0 && |ys| > 0
    ensures Join(xs + ys) == Join(xs) + "/" + Join(ys)
  {
    if |xs| == 1 {
      assert (xs + ys)[1..] == ys;
    } else {
      JoinAppend(xs[1..], ys);
      assert (xs + ys)[1..] == xs[1..] + ys;
    }
  }

  // ---------------------------------------------------------------------
  // Lexical cleaning (path.Clean) as a walk over components
  // ---------------------------------------------------------------------

  /** One component pushed on the stack of components kept so far. */
  function Push(rooted: bool, stack: seq<string>, c: string): seq<string> {
    if c == "" || c == "." then stack
    else if c == ".." then
      if stack != [] && stack[|stack| - 1] != ".." then stack[..|stack| - 1]
      else if rooted then stack
      else stack + [".."]
    else stack + [c]
  }

  function Walk(rooted: bool, stack: seq<string>, cs: seq<string>): seq<string>
    decreases |cs|
  {
    if cs == [] then stack else Walk(rooted, Push(rooted, stack, cs[0]), cs[1..])
  }

  function Rooted(s: string): bool { "/" <= s }

  function Clean(s: string): string {
    var stack := Walk(Rooted(s), [], Split(s));
    if Rooted(s) then "/" + Text(stack)
    else if stack == [] then "."
    else Text(stack)
  }

  /** Components joined by slashes; the empty list is the empty string. */
  function Text(cs: seq<string>): string {
    if cs == [] then "" else Join(cs)
  }

  /** path.Join of two elements: empty elements are ignored. */
  function PathJoin(a: string, b: string): string {
    if a == "" && b == "" then ""
    else if a == "" then Clean(b)
    else if b == "" then Clean(a)
    else Clean(a + "/" + b)
  }

  /** The index of the last slash, or -1. */
  function LastSlash(s: string): (i: int)
    ensures -1 <= i < |s|
    ensures 0 <= i ==> s[i] == '/'
    ensures forall k :: i < k < |s| ==> s[k] != '/'
  {
    if s == "" then -1
    else if s[|s| - 1] == '/' then |s| - 1
    else LastSlash(s[..|s| - 1])
  }

  /** path.Dir */
  function Dir(s: string): string { Clean(s[..LastSlash(s) + 1]) }

  function TrimSlashes(s: string): string {
    if s != "" && s[|s| - 1] == '/' then TrimSlashes(s[..|s| - 1]) else s
  }

  /** path.Base */
  function Base(s: string): string {
    if s == "" then "."
    else
      var t := TrimSlashes(s);
      if t == "" then "/" else t[LastSlash(t) + 1..]
  }

  // ---------------------------------------------------------------------
  // Names inside one filesystem (fs.ValidPath, without NUL)
  // ---------------------------------------------------------------------

  predicate ValidElement(c: string) {
    c != "" && c != "." && c != ".." && '/' !in c && '\0' !in c
  }

  predicate ValidElements(cs: seq<string>) {
    forall c :: c in cs ==> ValidElement(c)
  }

  /** fs.ValidPath(name) and no NUL character. */
  predicate Valid(name: string) {
    name == "." || ValidElements(Split(name))
  }

  /** The components of a valid name, outermost first; "." is the root. */
  function Comps(name: string): seq<string> {
    if name == "." then [] else Split(name)
  }

  function PathOf(cs: seq<string>): string {
    if cs == [] then "." else Join(cs)
  }

  lemma {:induction false} WalkAppend(rooted: bool, stack: seq<string>, xs: seq<string>, ys: seq<string>)
    ensures Walk(rooted, stack, xs + ys) == Walk(rooted, Walk(rooted, stack, xs), ys)
    decreases |xs|
  {
    if xs == [] {
      assert xs + ys == ys;
    } else {
      assert (xs + ys)[1..] == xs[1..] + ys;
      WalkAppend(rooted, Push(rooted, stack, xs[0]), xs[1..], ys);
    }
  }

  lemma {:induction false} WalkValid(rooted: bool, stack: seq<string>, cs: seq<string>)
    requires ValidElements(cs)
    ensures Walk(rooted, stack, cs) == stack + cs
    decreases |cs|
  {
    if cs != [] {
      assert ValidElement(cs[0]);
      WalkValid(rooted, stack + [cs[0]], cs[1..]);
      assert stack + [cs[0]] + cs[1..] == stack + cs;
    } else {
      assert stack + cs == stack;
    }
  }

  /** Valid names and lists of valid components are in bijection. */
  lemma CompsPathOf(cs: seq<string>)
    requires ValidElements(cs)
    ensures Valid(PathOf(cs)) && Comps(PathOf(cs)) == cs
  {
    if cs != [] {
      SplitJoin(cs);
      SplitPlain(".");
      assert ValidElement(cs[0]);
    }
  }

  lemma PathOfComps(name: string)
    requires Valid(name)
    ensures ValidElements(Comps(name)) && PathOf(Comps(name)) == name
  {
    JoinSplit(name);
  }

  lemma CompsInjective(p: string, q: string)
    requires Valid(p) && Valid(q) && Comps(p) == Comps(q)
    ensures p == q
  {
    PathOfComps(p);
    PathOfComps(q);
  }

  lemma {:induction false} LastSlashAppend(a: string, c: string)
    requires '/' !in c
    ensures LastSlash(a + "/" + c) == |a|
  {
    var s := a + "/" + c;
    assert s[|a|] == '/';
    assert forall k :: |a| < k < |s| ==> s[k] == c[k - |a| - 1];
  }

  /** path.Dir and path.Base of a valid name drop and pick the last component. */
  lemma DirBase(p: string)
    requires Valid(p) && p != "."
    ensures var cs := Comps(p);
            cs != [] && Valid(Dir(p)) && Comps(Dir(p)) == cs[..|cs| - 1] && Base(p) == cs[|cs| - 1]
  {
    var cs := Comps(p);
    assert ValidElement(cs[|cs| - 1]);
    PathOfComps(p);
    LastAppend(cs);
    if |cs| == 1 {
      DirBaseTop(p);
      assert cs[..0] == [];
    } else {
      DirBaseDeep(cs[..|cs| - 1], cs[|cs| - 1]);
      CompsPathOf(cs[..|cs| - 1]);
    }
  }

  lemma DirBaseTop(c: string)
    requires ValidElement(c)
    ensures Dir(c) == "." && Base(c) == c
  {
    assert LastSlash(c) == -1;
    assert c[..0] == "";
    assert Split("") == [""];
    assert TrimSlashes(c) == c;
  }

  lemma DirBaseDeep(init: seq<string>, c: string)
    requires init != [] && ValidElements(init) && ValidElement(c)
    ensures Dir(Join(init + [c])) == Join(init) && Base(Join(init + [c])) == c
  {
    hide Clean, Join, ValidElements;
    var a, p := Join(init), Join(init + [c]);
    JoinAppend(init, [c]);
    JoinOne(c);
    assert p == a + "/" + c;
    LastSlashAppend(a, c);
    assert p[..|a| + 1] == a + "/";
    assert p[|a| + 1..] == c;
    assert p[|p| - 1] == c[|c| - 1];
    assert TrimSlashes(p) == p;
    DirOfDirectory(init);
  }

  lemma JoinOne(c: string)
    ensures Join([c]) == c
  {}

  lemma LastAppend(cs: seq<string>)
    requires cs != []
    ensures cs == cs[..|cs| - 1] + [cs[|cs| - 1]]
  {}

  /** A name is determined by its directory and its last component. */
  lemma SameDirBase(p: string, q: string)
    requires Valid(p) && Valid(q) && p != Dir(p) && q != Dir(q)
    requires Dir(p) == Dir(q) && Base(p) == Base(q)
    ensures p == q
  {
    hide Valid, Dir, Base, Comps;
    DirOfRoot();
    DirBase(p);
    DirBase(q);
    LastAppend(Comps(p));
    LastAppend(Comps(q));
    CompsInjective(p, q);
  }

  lemma DirOfRoot()
    ensures Dir(".") == "." && Valid(".")
  {
    assert LastSlash(".") == -1;
    assert "."[..0] == "";
    assert Split("") == [""];
  }

  lemma DirOfDirectory(cs: seq<string>)
    requires cs != [] && ValidElements(cs)
    ensures Clean(Join(cs) + "/") == Join(cs)
  {
    var a := Join(cs);
    SplitAppend(a, "");
    SplitJoin(cs);
    assert a + "/" + "" == a + "/";
    assert Split("") == [""];
    WalkAppend(false, [], cs, [""]);
    WalkValid(false, [], cs);
    assert [] + cs == cs;
    assert Walk(false, cs, [""]) == cs;
    NotRooted(cs);
    assert (a + "/")[0] == a[0];
  }

  lemma NotRooted(cs: seq<string>)
    requires cs != [] && ValidElements(cs)
    ensures Join(cs) != "" && Join(cs)[0] != '/'
  {
    assert ValidElement(cs[0]);
    assert Join(cs)[0] == cs[0][0];
  }

  /** A name below q in the text is below q in the tree. */
  lemma BeneathText(p: string, q: string)
    requires Valid(p) && Valid(q) && q != "." && q + "/" <= p
    ensures p != "."
    ensures Comps(p) == Comps(q) + Split(p[|q| + 1..])
  {
    assert p == q + "/" + p[|q| + 1..];
    SplitAppend(q, p[|q| + 1..]);
    assert Split("") == [""] && !ValidElement("");
    assert |q| > 0;
  }

  lemma BeneathComps(p: string, q: string)
    requires Valid(p) && Valid(q) && q != "." && Comps(q) < Comps(p)
    ensures q + "/" <= p
  {
    PathOfComps(p);
    PathOfComps(q);
    var r := Comps(p)[|Comps(q)|..];
    assert Comps(p) == Comps(q) + r;
    JoinAppend(Comps(q), r);
    assert p == q + "/" + Join(r);
  }

  /** strings.HasPrefix(p, q + "/") says exactly that q is a proper ancestor. */
  lemma Beneath(p: string, q: string)
    requires Valid(p) && Valid(q) && q != "."
    ensures q + "/" <= p <==> Comps(q) < Comps(p)
  {
    if q + "/" <= p { BeneathText(p, q); }
    if Comps(q) < Comps(p) { BeneathComps(p, q); }
  }

  /** p is q or a name below q. */
  predicate Within(p: string, q: string) { p == q || q + "/" <= p }

  lemma WithinComps(p: string, q: string)
    requires Valid(p) && Valid(q) && q != "."
    ensures Within(p, q) <==> Comps(q) <= Comps(p)
  {
    Beneath(p, q);
    if Comps(q) <= Comps(p) && !(Comps(q) < Comps(p)) { CompsInjective(p, q); }
  }

  /** Where the directory part of a + r ends, for r starting with a slash. */
  function Up(r: string): string
    requires "/" <= r
  {
    assert r[0] == '/';
    r[..LastSlash(r)]
  }

  lemma UpAppend(x: string, c: string)
    requires '/' !in c && (x == "" || "/" <= x)
    ensures "/" <= x + "/" + c && Up(x + "/" + c) == x
  {
    LastSlashAppend(x, c);
  }

  /** A slash before every component. */
  function Slashed(cs: seq<string>): string {
    if cs == [] then "" else "/" + Join(cs)
  }

  lemma SlashedAppend(cs: seq<string>, c: string)
    ensures Slashed(cs + [c]) == Slashed(cs) + "/" + c
  {
    if cs != [] {
      JoinAppend(cs, [c]);
    } else {
      assert [] + [c] == [c];
    }
  }

  lemma UpSlashed(cs: seq<string>)
    requires cs != [] && ValidElements(cs)
    ensures "/" <= Slashed(cs)
    ensures Up(Slashed(cs)) == Slashed(cs[..|cs| - 1])
  {
    var init, last := cs[..|cs| - 1], cs[|cs| - 1];
    assert ValidElement(last);
    assert cs == init + [last];
    SlashedAppend(init, last);
    UpAppend(Slashed(init), last);
  }

  /** The name cs below a. */
  lemma Below(a: string, cs: seq<string>)
    requires Valid(a) && a != "." && ValidElements(cs)
    ensures Valid(a + Slashed(cs)) && a + Slashed(cs) != "."
    ensures Comps(a + Slashed(cs)) == Comps(a) + cs
    ensures a + Slashed(cs) == PathOf(Comps(a) + cs)
  {
    PathOfComps(a);
    CompsPathOf(Comps(a) + cs);
    if cs != [] {
      JoinAppend(Comps(a), cs);
      assert a + ("/" + Join(cs)) == a + "/" + Join(cs);
    } else {
      assert Comps(a) + cs == Comps(a);
      assert a + Slashed(cs) == a;
    }
  }

  lemma DirBelow(a: string, cs: seq<string>)
    requires Valid(a) && a != "." && cs != [] && ValidElements(cs)
    ensures Dir(a + Slashed(cs)) == a + Slashed(cs[..|cs| - 1])
    ensures Base(a + Slashed(cs)) == cs[|cs| - 1]
  {
    var p, init := a + Slashed(cs), cs[..|cs| - 1];
    Below(a, cs);
    Below(a, init);
    DirBase(p);
    assert Comps(Dir(p)) == Comps(a) + init;
    CompsInjective(Dir(p), a + Slashed(init));
  }

  /** Replacing the prefix a of the valid name a + r by b keeps the shape of r. */
  lemma Shift(a: string, b: string, r: string)
    requires Valid(a) && Valid(b) && a != "." && b != "." && "/" <= r && Valid(a + r)
    ensures Valid(b + r) && b + r != "." && a + r != "."
    ensures Dir(b + r) == b + Up(r) && Dir(a + r) == a + Up(r)
    ensures Base(b + r) == Base(a + r)
    ensures Up(r) == "" || "/" <= Up(r)
  {
    var cs := TailOf(a, r);
    Below(a, cs);
    Below(b, cs);
    DirBelow(a, cs);
    DirBelow(b, cs);
    UpSlashed(cs);
  }

  lemma TailOf(a: string, r: string) returns (cs: seq<string>)
    requires Valid(a) && a != "." && "/" <= r && Valid(a + r)
    ensures cs != [] && ValidElements(cs) && r == Slashed(cs)
  {
    var t, p := r[1..], a + r;
    cs := Split(t);
    JoinSplit(t);
    assert r == "/" + t && p == a + "/" + t && p[|a| + 1..] == t;
    BeneathText(p, a);
    PathOfComps(p);
    forall c | c in cs ensures ValidElement(c) { assert c in Comps(p); }
  }
}
