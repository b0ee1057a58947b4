/** Temporary assignments are undone, and copies of the shell keep to themselves. */
module ShellScope {
  import opened Store
  import opened ShellSyntax
  import opened ShellState
  import opened ShellEval

  // ---------------------------------------------------------------------
  // Prefix assignments
  // ---------------------------------------------------------------------

  /** What a script can see of a variable: one that is neither set nor exported
      is as good as absent. */
  function Seen(vars: Vars, k: string): Option<Variable> {
    if k in vars && (vars[k].isSet || vars[k].exported) then Some(vars[k]) else None
  }

  /** The configuration before the n-th assignment. */
  function Reached(o: Oracle, c: Conf, xs: seq<Assign>, io: IO, n: nat): Conf
    requires n <= |xs|
    decreases n
  {
    if n == 0 then c else Reached(o, Assignment(o, c, xs[0], true, io).c, xs[1..], io, n - 1)
  }

  /** None of the first n assignments fails. */
  predicate Fine(o: Oracle, c: Conf, xs: seq<Assign>, io: IO, n: nat)
    requires n <= |xs|
    decreases n
  {
    n == 0 || (var a := Assignment(o, c, xs[0], true, io); a.err.None? && Fine(o, a.c, xs[1..], io, n - 1))
  }

  /** The n-th assignment is the first to its name, and is reached. */
  predicate FirstTo(o: Oracle, c: Conf, xs: seq<Assign>, io: IO, n: nat) {
    n < |xs| && Fine(o, c, xs, io, n) && forall j :: 0 <= j < n ==> xs[j].name != xs[n].name
  }

  lemma {:induction false} PrefixesKeepSaved(o: Oracle, c: Conf, xs: seq<Assign>, before: Saved, io: IO, k: string)
    requires k in before
    ensures k in Prefixes(o, c, xs, before, io).value.before &&
              Prefixes(o, c, xs, before, io).value.before[k] == before[k]
    decreases |xs|
  {
    hide Assignment;
    if xs != [] {
      var name := xs[0].name;
      var before' := if name in before then before else before[name := Get(c.sh.vars, name)];
      PrefixesKeepSaved(o, Assignment(o, c, xs[0], true, io).c, xs[1..], before', io, k);
    }
  }

  lemma {:induction false} PrefixesSave(o: Oracle, c: Conf, xs: seq<Assign>, before: Saved, io: IO, n: nat)
    requires FirstTo(o, c, xs, io, n) && xs[n].name !in before
    ensures var k, saved := xs[n].name, Prefixes(o, c, xs, before, io).value.before;
            k in saved && saved[k] == Get(Reached(o, c, xs, io, n).sh.vars, k)
    decreases |xs|
  {
    hide Assignment;
    var name := xs[0].name;
    var before' := if name in before then before else before[name := Get(c.sh.vars, name)];
    var a := Assignment(o, c, xs[0], true, io);
    if n == 0 {
      PrefixesKeepSaved(o, a.c, xs[1..], before', io, name);
    } else {
      assert xs[1..][n - 1] == xs[n];
      assert forall j :: 0 <= j < n - 1 ==> xs[1..][j] == xs[j + 1];
      assert xs[0].name != xs[n].name;
      PrefixesSave(o, a.c, xs[1..], before', io, n - 1);
    }
  }

  /** After a command with prefix assignments, whatever the command did to the
      variable, however often it was assigned, and even when a later assignment
      fails, each assigned variable is seen with the value it had just before
      the first assignment to it. */
  lemma CallRestores(o: Oracle, c: Conf, assigns: seq<Assign>, args: seq<string>, io: IO, n: nat)
    requires args != [] && FirstTo(o, c, assigns, io, n)
    ensures var k := assigns[n].name;
            Seen(Call(o, c, assigns, args, io).c.sh.vars, k) == Seen(Reached(o, c, assigns, io, n).sh.vars, k)
  {
    hide Prefixes, Invoke, Reached, Fine;
    PrefixesSave(o, c, assigns, map[], io, n);
  }

  /** The names that assignments are made to. */
  predicate Assigned(xs: seq<Assign>, k: string) { exists a :: a in xs && a.name == k }

  lemma {:induction false} PrefixesSaveNoOther(o: Oracle, c: Conf, xs: seq<Assign>, before: Saved, io: IO, k: string)
    requires !Assigned(xs, k) && k !in before
    ensures k !in Prefixes(o, c, xs, before, io).value.before
    decreases |xs|
  {
    hide Assignment;
    if xs != [] {
      var name := xs[0].name;
      assert xs[0] in xs && forall a :: a in xs[1..] ==> a in xs;
      var before' := if name in before then before else before[name := Get(c.sh.vars, name)];
      PrefixesSaveNoOther(o, Assignment(o, c, xs[0], true, io).c, xs[1..], before', io, k);
    }
  }

  /** Other variables keep what the command made of them. */
  lemma CallLeavesOthers(o: Oracle, c: Conf, assigns: seq<Assign>, args: seq<string>, io: IO, k: string)
    requires args != [] && !Assigned(assigns, k)
    ensures var p := Prefixes(o, c, assigns, map[], io);
            var last := if p.err.Some? then p.c else Invoke(o, p.c, args, io).c;
            Seen(Call(o, c, assigns, args, io).c.sh.vars, k) == Seen(last.sh.vars, k)
  {
    hide Prefixes, Invoke, Assigned;
    PrefixesSaveNoOther(o, c, assigns, map[], io, k);
  }

  // ---------------------------------------------------------------------
  // When that value is the one before the whole command
  // ---------------------------------------------------------------------

  /** Whether expanding may assign the variable: by ${k:=...}, outside substitutions. */
  predicate Sets(w: seq<Part>, k: string)
    decreases w
  {
    w != [] && (PartSets(w[0], k) || Sets(w[1..], k))
  }

  predicate PartSets(p: Part, k: string)
    decreases p
  {
    match p
    case Default(name, word) => name == k || Sets(word, k)
    case _ => false
  }

  /** The parameter has a value that is not empty, so ${k:=...} does not assign it. */
  predicate HasValue(o: Oracle, sh: Sh, k: string) { Spaced(Lookup(o, sh, k)) != "" }

  /** Nothing that k's value depends on differs. */
  predicate SameValue(a: Sh, b: Sh, k: string) {
    Get(b.vars, k) == Get(a.vars, k) && b.args == a.args && b.status == a.status
  }

  lemma SameLookup(o: Oracle, a: Sh, b: Sh, k: string)
    requires SameValue(a, b, k)
    ensures HasValue(o, a, k) <==> HasValue(o, b, k)
  {
  }

  lemma SubstitutionIsolates(o: Oracle, c: Conf, body: seq<Stmt>, io: IO)
    ensures Substitute(o, c, body, io).c.sh == c.sh.(subStatus := Substitute(o, c, body, io).c.sh.subStatus)
  {
    hide List;
  }

  lemma {:induction false} PartLeaves(o: Oracle, c: Conf, p: Part, io: IO, k: string)
    requires !PartSets(p, k) || HasValue(o, c.sh, k)
    ensures SameValue(c.sh, ExpandPart(o, c, p, io).c.sh, k)
    decreases p
  {
    hide Expand, Substitute, Lookup;
    match p
    case Lit(_) =>
    case Var(_) =>
    case Default(_, word) => ExpandLeaves(o, c, word, io, k);
    case Subst(body) => SubstitutionIsolates(o, c, body, io);
  }

  lemma {:induction false} ExpandLeaves(o: Oracle, c: Conf, w: seq<Part>, io: IO, k: string)
    requires !Sets(w, k) || HasValue(o, c.sh, k)
    ensures SameValue(c.sh, Expand(o, c, w, io).c.sh, k)
    decreases w
  {
    hide ExpandPart, HasValue;
    if w != [] {
      PartLeaves(o, c, w[0], io, k);
      var p := ExpandPart(o, c, w[0], io);
      SameLookup(o, c.sh, p.c.sh, k);
      if p.err.None? { ExpandLeaves(o, p.c, w[1..], io, k); }
    }
  }

  lemma {:induction false} ReachedLeaves(o: Oracle, c: Conf, xs: seq<Assign>, io: IO, n: nat, k: string)
    requires n <= |xs| && forall j :: 0 <= j < n ==> xs[j].name != k
    requires HasValue(o, c.sh, k) || forall j :: 0 <= j < n ==> !Sets(xs[j].value, k)
    ensures SameValue(c.sh, Reached(o, c, xs, io, n).sh, k)
    decreases n
  {
    hide Expand, HasValue;
    if n > 0 {
      ExpandLeaves(o, c, xs[0].value, io, k);
      var d := Assignment(o, c, xs[0], true, io).c;
      SameLookup(o, c.sh, d.sh, k);
      assert forall j :: 0 <= j < n - 1 ==> xs[1..][j] == xs[j + 1];
      ReachedLeaves(o, d, xs[1..], io, n - 1, k);
    }
  }

  /** When the variable has a value that is not empty, or no value of an earlier
      assignment assigns it by expansion, it is seen as it was before the whole
      command. */
  lemma CallRestoresStart(o: Oracle, c: Conf, assigns: seq<Assign>, args: seq<string>, io: IO, n: nat)
    requires args != [] && FirstTo(o, c, assigns, io, n)
    requires HasValue(o, c.sh, assigns[n].name) || forall j :: 0 <= j < n ==> !Sets(assigns[j].value, assigns[n].name)
    ensures var k := assigns[n].name;
            Seen(Call(o, c, assigns, args, io).c.sh.vars, k) == Seen(c.sh.vars, k)
  {
    hide Reached, Fine, Sets, Call;
    CallRestores(o, c, assigns, args, io, n);
    ReachedLeaves(o, c, assigns, io, n, assigns[n].name);
  }

  // ---------------------------------------------------------------------
  // When it is not
  // ---------------------------------------------------------------------

  /** From a to b, k was set, or nothing that its value depends on changed. */
  predicate SetOrSame(a: Sh, b: Sh, k: string) {
    && b.args == a.args && b.status == a.status
    && (Get(b.vars, k).isSet || Get(b.vars, k) == Get(a.vars, k))
  }

  /** k is set, or is yet to be set by the first ${k:=...} there is. */
  predicate SetOrEmpty(o: Oracle, sh: Sh, k: string) { Get(sh.vars, k).isSet || !HasValue(o, sh, k) }

  lemma StillSetOrEmpty(o: Oracle, a: Sh, b: Sh, k: string)
    requires SetOrSame(a, b, k) && SetOrEmpty(o, a, k)
    ensures SetOrEmpty(o, b, k)
  {
    if Get(b.vars, k) == Get(a.vars, k) { SameLookup(o, a, b, k); }
  }

  lemma {:induction false} PartOnlySets(o: Oracle, c: Conf, p: Part, io: IO, k: string)
    ensures SetOrSame(c.sh, ExpandPart(o, c, p, io).c.sh, k)
    decreases p
  {
    hide Expand, Substitute, Lookup;
    match p
    case Lit(_) =>
    case Var(_) =>
    case Default(_, word) => ExpandOnlySets(o, c, word, io, k);
    case Subst(body) => SubstitutionIsolates(o, c, body, io);
  }

  lemma {:induction false} ExpandOnlySets(o: Oracle, c: Conf, w: seq<Part>, io: IO, k: string)
    ensures SetOrSame(c.sh, Expand(o, c, w, io).c.sh, k)
    decreases w
  {
    hide ExpandPart;
    if w != [] {
      PartOnlySets(o, c, w[0], io, k);
      var p := ExpandPart(o, c, w[0], io);
      if p.err.None? { ExpandOnlySets(o, p.c, w[1..], io, k); }
    }
  }

  /** No ${k:=...} stands inside the word of another ${x:=...}. */
  predicate NotNested(w: seq<Part>, k: string) { forall p :: p in w && p.Default? ==> !Sets(p.word, k) }

  /** Every ${k:=...} in the word is come to: the library expands the word of a
      ${x:=...} in any case, or none stands inside another. */
  predicate AllReached(o: Oracle, w: seq<Part>, k: string) { o.eager || NotNested(w, k) }

  lemma RestReached(o: Oracle, w: seq<Part>, k: string)
    requires w != [] && AllReached(o, w, k)
    ensures AllReached(o, w[1..], k)
    ensures w[0].Default? && !o.eager ==> !Sets(w[0].word, k)
  {
    assert w[0] in w && forall p :: p in w[1..] ==> p in w;
  }

  lemma EagerReached(o: Oracle, w: seq<Part>, k: string)
    requires o.eager
    ensures AllReached(o, w, k)
  {
  }

  /** Expanding a word in which a ${k:=...} is come to leaves k set. */
  lemma {:induction false} PartSetsIt(o: Oracle, c: Conf, p: Part, io: IO, k: string)
    requires PartSets(p, k) && SetOrEmpty(o, c.sh, k) && (p.name == k || o.eager)
    requires ExpandPart(o, c, p, io).err.None?
    ensures Get(ExpandPart(o, c, p, io).c.sh.vars, k).isSet
    decreases p
  {
    hide Expand, Lookup, Sets, SetOrEmpty;
    PartOnlySets(o, c, p, io, k);
    if p.name == k {
      NamedPartSets(o, c, p.word, io, k);
    } else {
      EagerReached(o, p.word, k);
      ExpandSets(o, c, p.word, io, k);
    }
  }

  lemma NamedPartSets(o: Oracle, c: Conf, word: seq<Part>, io: IO, k: string)
    requires SetOrEmpty(o, c.sh, k) && ExpandPart(o, c, Default(k, word), io).err.None?
    ensures Get(ExpandPart(o, c, Default(k, word), io).c.sh.vars, k).isSet
  {
    hide Expand, Lookup;
    PartOnlySets(o, c, Default(k, word), io, k);
  }

  lemma {:induction false} ExpandSets(o: Oracle, c: Conf, w: seq<Part>, io: IO, k: string)
    requires Sets(w, k) && AllReached(o, w, k)
    requires SetOrEmpty(o, c.sh, k) && Expand(o, c, w, io).err.None?
    ensures Get(Expand(o, c, w, io).c.sh.vars, k).isSet
    decreases w
  {
    hide ExpandPart, SetOrEmpty, AllReached;
    var p := ExpandPart(o, c, w[0], io);
    RestReached(o, w, k);
    PartOnlySets(o, c, w[0], io, k);
    StillSetOrEmpty(o, c.sh, p.c.sh, k);
    if PartSets(w[0], k) {
      PartSetsIt(o, c, w[0], io, k);
      ExpandOnlySets(o, p.c, w[1..], io, k);
    } else {
      ExpandSets(o, p.c, w[1..], io, k);
    }
  }

  lemma {:induction false} ReachedOnlySets(o: Oracle, c: Conf, xs: seq<Assign>, io: IO, n: nat, k: string)
    requires n <= |xs| && forall j :: 0 <= j < n ==> xs[j].name != k
    ensures SetOrSame(c.sh, Reached(o, c, xs, io, n).sh, k)
    decreases n
  {
    hide Expand;
    if n > 0 {
      ExpandOnlySets(o, c, xs[0].value, io, k);
      assert forall j :: 0 <= j < n - 1 ==> xs[1..][j] == xs[j + 1];
      ReachedOnlySets(o, Assignment(o, c, xs[0], true, io).c, xs[1..], io, n - 1, k);
    }
  }

  lemma {:induction false} ReachedSets(o: Oracle, c: Conf, xs: seq<Assign>, io: IO, n: nat, k: string, j: nat)
    requires j < n <= |xs| && Fine(o, c, xs, io, n) && forall j :: 0 <= j < n ==> xs[j].name != k
    requires Sets(xs[j].value, k) && AllReached(o, xs[j].value, k) && SetOrEmpty(o, c.sh, k)
    ensures Get(Reached(o, c, xs, io, n).sh.vars, k).isSet
    decreases n
  {
    hide Expand, SetOrEmpty, AllReached, Sets;
    ExpandOnlySets(o, c, xs[0].value, io, k);
    var d := Assignment(o, c, xs[0], true, io).c;
    assert forall j :: 0 <= j < n - 1 ==> xs[1..][j] == xs[j + 1];
    if j == 0 {
      ExpandSets(o, c, xs[0].value, io, k);
      ReachedOnlySets(o, d, xs[1..], io, n - 1, k);
    } else {
      StillSetOrEmpty(o, c.sh, d.sh, k);
      ReachedSets(o, d, xs[1..], io, n - 1, k, j - 1);
    }
  }

  /** A variable that was unset is not seen so again once the value of an earlier
      assignment has set it by ${k:=...}, whatever the command does. */
  lemma StartIsLost(o: Oracle, c: Conf, assigns: seq<Assign>, args: seq<string>, io: IO, n: nat, j: nat)
    requires args != [] && FirstTo(o, c, assigns, io, n) && j < n
    requires Sets(assigns[j].value, assigns[n].name) && AllReached(o, assigns[j].value, assigns[n].name)
    requires !Get(c.sh.vars, assigns[n].name).isSet && !HasValue(o, c.sh, assigns[n].name)
    ensures var k := assigns[n].name;
            Seen(Call(o, c, assigns, args, io).c.sh.vars, k) != Seen(c.sh.vars, k)
  {
    hide Reached, Fine, Call;
    CallRestores(o, c, assigns, args, io, n);
    ReachedSets(o, c, assigns, io, n, assigns[n].name, j);
  }

  /** For an unset variable, exactly when it is seen as before the whole command:
      no value of an earlier assignment assigns it by expansion. */
  lemma UnsetRestoredExactly(o: Oracle, c: Conf, assigns: seq<Assign>, args: seq<string>, io: IO, n: nat)
    requires args != [] && FirstTo(o, c, assigns, io, n)
    requires !Get(c.sh.vars, assigns[n].name).isSet && !HasValue(o, c.sh, assigns[n].name)
    requires forall j :: 0 <= j < n ==> AllReached(o, assigns[j].value, assigns[n].name)
    ensures var k := assigns[n].name;
            Seen(Call(o, c, assigns, args, io).c.sh.vars, k) == Seen(c.sh.vars, k) <==>
            forall j :: 0 <= j < n ==> !Sets(assigns[j].value, k)
  {
    hide Call, Sets, HasValue, Seen, Get, Fine, AllReached;
    var k := assigns[n].name;
    if j :| 0 <= j < n && Sets(assigns[j].value, k) {
      StartIsLost(o, c, assigns, args, io, n, j);
    } else {
      CallRestoresStart(o, c, assigns, args, io, n);
    }
  }

  // ---------------------------------------------------------------------
  // Variables that are set and empty
  // ---------------------------------------------------------------------

  /** The word of every ${k:=...} in w is written out. */
  predicate Written(w: seq<Part>, k: string)
    decreases w
  {
    w == [] || (PartWritten(w[0], k) && Written(w[1..], k))
  }

  predicate PartWritten(p: Part, k: string)
    decreases p
  {
    match p
    case Default(name, word) => (name == k ==> IsLiteral(word)) && Written(word, k)
    case _ => true
  }

  /** And is empty. */
  predicate Blank(w: seq<Part>, k: string)
    decreases w
  {
    w == [] || (PartBlank(w[0], k) && Blank(w[1..], k))
  }

  predicate PartBlank(p: Part, k: string)
    decreases p
  {
    match p
    case Default(name, word) => (name == k ==> IsLiteral(word) && LiteralText(word) == "") && Blank(word, k)
    case _ => true
  }

  lemma {:induction false} LiteralBlank(w: seq<Part>, k: string)
    requires IsLiteral(w)
    ensures Blank(w, k)
    decreases w
  {
    if w != [] { LiteralBlank(w[1..], k); }
  }

  lemma {:induction false} UnsetBlank(w: seq<Part>, k: string)
    requires !Sets(w, k)
    ensures Blank(w, k)
    decreases w
  {
    if w != [] {
      if w[0].Default? { UnsetBlank(w[0].word, k); }
      UnsetBlank(w[1..], k);
    }
  }

  lemma {:induction false} LiteralExpands(o: Oracle, c: Conf, w: seq<Part>, io: IO)
    requires IsLiteral(w)
    ensures var r := Expand(o, c, w, io); r.c == c && r.err.None? && Glued(r.value) == LiteralText(w)
    decreases w
  {
    if w != [] {
      assert w[0] in w && forall p :: p in w[1..] ==> p in w;
      LiteralExpands(o, c, w[1..], io);
      var rest := Expand(o, c, w[1..], io).value;
      assert Spaced([w[0].text]) == w[0].text;
      assert ([[w[0].text]] + rest)[1..] == rest;
    }
  }

  /** A name that an assignment can be made to: no positional or special parameter. */
  predicate Named(o: Oracle, k: string) { k !in ["?", "#", "@", "*", "$", "0"] && o.atoi(k).None? }

  lemma NamedValue(o: Oracle, sh: Sh, k: string)
    requires Named(o, k)
    ensures HasValue(o, sh, k) <==> k == "PPID" || Get(sh.vars, k).text != ""
  {
  }

  /** k is set and empty. */
  predicate SetEmpty(o: Oracle, sh: Sh, k: string) { Get(sh.vars, k).isSet && !HasValue(o, sh, k) }

  /** ${k:=} with an empty word leaves a variable that is set and empty alone. */
  lemma {:induction false} PartStaysEmpty(o: Oracle, c: Conf, p: Part, io: IO, k: string)
    requires Named(o, k) && PartBlank(p, k) && SetEmpty(o, c.sh, k)
    ensures Get(ExpandPart(o, c, p, io).c.sh.vars, k) == Get(c.sh.vars, k)
    decreases p
  {
    hide Expand, Substitute, Lookup;
    NamedValue(o, c.sh, k);
    match p
    case Lit(_) =>
    case Var(_) =>
    case Default(name, word) =>
      if name == k { LiteralExpands(o, c, word, io); } else { ExpandStaysEmpty(o, c, word, io, k); }
    case Subst(body) => SubstitutionIsolates(o, c, body, io);
  }

  lemma {:induction false} ExpandStaysEmpty(o: Oracle, c: Conf, w: seq<Part>, io: IO, k: string)
    requires Named(o, k) && Blank(w, k) && SetEmpty(o, c.sh, k)
    ensures Get(Expand(o, c, w, io).c.sh.vars, k) == Get(c.sh.vars, k)
    decreases w
  {
    hide ExpandPart, HasValue, Named;
    if w != [] {
      PartStaysEmpty(o, c, w[0], io, k);
      var p := ExpandPart(o, c, w[0], io);
      NamedValue(o, c.sh, k);
      NamedValue(o, p.c.sh, k);
      if p.err.None? { ExpandStaysEmpty(o, p.c, w[1..], io, k); }
    }
  }

  lemma {:induction false} ReachedStaysEmpty(o: Oracle, c: Conf, xs: seq<Assign>, io: IO, n: nat, k: string)
    requires n <= |xs| && forall j :: 0 <= j < n ==> xs[j].name != k && Blank(xs[j].value, k)
    requires Named(o, k) && SetEmpty(o, c.sh, k)
    ensures Get(Reached(o, c, xs, io, n).sh.vars, k) == Get(c.sh.vars, k)
    decreases n
  {
    hide Expand, HasValue, Named, Blank;
    if n > 0 {
      ExpandStaysEmpty(o, c, xs[0].value, io, k);
      var d := Assignment(o, c, xs[0], true, io).c;
      NamedValue(o, c.sh, k);
      NamedValue(o, d.sh, k);
      assert forall j :: 0 <= j < n - 1 ==> xs[1..][j] == xs[j + 1];
      ReachedStaysEmpty(o, d, xs[1..], io, n - 1, k);
    }
  }

  /** A written-out word that is not empty gives k a value, unless it has one. */
  lemma {:induction false} PartFills(o: Oracle, c: Conf, p: Part, io: IO, k: string)
    requires Named(o, k) && PartWritten(p, k) && !PartBlank(p, k) && (p.Default? && p.name != k ==> o.eager)
    requires ExpandPart(o, c, p, io).err.None?
    ensures HasValue(o, ExpandPart(o, c, p, io).c.sh, k)
    decreases p
  {
    hide Expand, Lookup, HasValue;
    var r := ExpandPart(o, c, p, io);
    NamedValue(o, c.sh, k);
    NamedValue(o, r.c.sh, k);
    if p.name == k {
      LiteralBlank(p.word, k);
      LiteralExpands(o, c, p.word, io);
      assert HasValue(o, c.sh, k) <==> Spaced(Lookup(o, c.sh, k)) != "" by { LookupValue(o, c.sh, k); }
    } else {
      EagerReached(o, p.word, k);
      ExpandFills(o, c, p.word, io, k);
      NamedValue(o, Expand(o, c, p.word, io).c.sh, k);
    }
  }

  lemma LookupValue(o: Oracle, sh: Sh, k: string)
    ensures HasValue(o, sh, k) <==> Spaced(Lookup(o, sh, k)) != ""
  {
  }

  lemma {:induction false} ExpandFills(o: Oracle, c: Conf, w: seq<Part>, io: IO, k: string)
    requires Named(o, k) && Written(w, k) && !Blank(w, k) && AllReached(o, w, k)
    requires Expand(o, c, w, io).err.None?
    ensures HasValue(o, Expand(o, c, w, io).c.sh, k)
    decreases w
  {
    hide ExpandPart, HasValue, AllReached, Named;
    var p := ExpandPart(o, c, w[0], io);
    RestReached(o, w, k);
    if PartBlank(w[0], k) {
      ExpandFills(o, p.c, w[1..], io, k);
    } else {
      if w[0].name != k && !o.eager { UnsetBlank(w[0].word, k); }
      PartFills(o, c, w[0], io, k);
      ExpandLeaves(o, p.c, w[1..], io, k);
      SameLookup(o, p.c.sh, Expand(o, p.c, w[1..], io).c.sh, k);
    }
  }

  lemma {:induction false} ReachedFills(o: Oracle, c: Conf, xs: seq<Assign>, io: IO, n: nat, k: string, j: nat)
    requires j < n <= |xs| && Fine(o, c, xs, io, n) && forall j :: 0 <= j < n ==> xs[j].name != k
    requires Named(o, k) && Written(xs[j].value, k) && !Blank(xs[j].value, k) && AllReached(o, xs[j].value, k)
    ensures HasValue(o, Reached(o, c, xs, io, n).sh, k)
    decreases n
  {
    hide Expand, HasValue, AllReached, Blank, Written, Named;
    var d := Assignment(o, c, xs[0], true, io).c;
    assert forall j :: 0 <= j < n - 1 ==> xs[1..][j] == xs[j + 1];
    if j == 0 {
      ExpandFills(o, c, xs[0].value, io, k);
      SameLookup(o, Expand(o, c, xs[0].value, io).c.sh, d.sh, k);
      ReachedLeaves(o, d, xs[1..], io, n - 1, k);
      SameLookup(o, d.sh, Reached(o, d, xs[1..], io, n - 1).sh, k);
    } else {
      ReachedFills(o, d, xs[1..], io, n - 1, k, j - 1);
    }
  }

  /** A variable that was set and empty is not seen so again once the value of an
      earlier assignment has filled it by ${k:=...}, whatever the command does. */
  lemma EmptyIsLost(o: Oracle, c: Conf, assigns: seq<Assign>, args: seq<string>, io: IO, n: nat, j: nat)
    requires args != [] && FirstTo(o, c, assigns, io, n) && j < n && Named(o, assigns[n].name)
    requires Written(assigns[j].value, assigns[n].name) && !Blank(assigns[j].value, assigns[n].name)
    requires AllReached(o, assigns[j].value, assigns[n].name) && SetEmpty(o, c.sh, assigns[n].name)
    ensures var k := assigns[n].name;
            Seen(Call(o, c, assigns, args, io).c.sh.vars, k) != Seen(c.sh.vars, k)
  {
    hide Reached, Fine, Call, HasValue, AllReached, Blank, Written, Named;
    var k := assigns[n].name;
    CallRestores(o, c, assigns, args, io, n);
    ReachedFills(o, c, assigns, io, n, k, j);
    NamedValue(o, c.sh, k);
    NamedValue(o, Reached(o, c, assigns, io, n).sh, k);
  }

  /** For a variable that is set and empty, exactly when it is seen as before the
      whole command: what the values of earlier assignments assign to it by
      expansion is empty as well. */
  lemma EmptyRestoredExactly(o: Oracle, c: Conf, assigns: seq<Assign>, args: seq<string>, io: IO, n: nat)
    requires args != [] && FirstTo(o, c, assigns, io, n) && Named(o, assigns[n].name)
    requires SetEmpty(o, c.sh, assigns[n].name)
    requires forall j :: 0 <= j < n ==>
               AllReached(o, assigns[j].value, assigns[n].name) && Written(assigns[j].value, assigns[n].name)
    ensures var k := assigns[n].name;
            Seen(Call(o, c, assigns, args, io).c.sh.vars, k) == Seen(c.sh.vars, k) <==>
            forall j :: 0 <= j < n ==> Blank(assigns[j].value, k)
  {
    hide Call, HasValue, Get, Fine, AllReached, Blank, Written, Named, Reached;
    var k := assigns[n].name;
    if j :| 0 <= j < n && !Blank(assigns[j].value, k) {
      EmptyIsLost(o, c, assigns, args, io, n, j);
    } else {
      CallRestores(o, c, assigns, args, io, n);
      ReachedStaysEmpty(o, c, assigns, io, n, k);
      SeenOf(Reached(o, c, assigns, io, n).sh.vars, c.sh.vars, k);
    }
  }

  lemma SeenOf(a: Vars, b: Vars, k: string)
    requires Get(a, k) == Get(b, k)
    ensures Seen(a, k) == Seen(b, k)
  {
  }

  /** All variables together: when one is seen as before the whole command, read
      off its value before the command and the values of the assignments before
      its own. */
  lemma RestoredExactly(o: Oracle, c: Conf, assigns: seq<Assign>, args: seq<string>, io: IO, n: nat)
    requires args != [] && FirstTo(o, c, assigns, io, n) && Named(o, assigns[n].name)
    requires !HasValue(o, c.sh, assigns[n].name) ==>
               forall j :: 0 <= j < n ==> AllReached(o, assigns[j].value, assigns[n].name)
    requires SetEmpty(o, c.sh, assigns[n].name) ==>
               forall j :: 0 <= j < n ==> Written(assigns[j].value, assigns[n].name)
    ensures var k := assigns[n].name;
            Seen(Call(o, c, assigns, args, io).c.sh.vars, k) == Seen(c.sh.vars, k) <==>
              || HasValue(o, c.sh, k)
              || (forall j :: 0 <= j < n ==> !Sets(assigns[j].value, k))
              || (SetEmpty(o, c.sh, k) && forall j :: 0 <= j < n ==> Blank(assigns[j].value, k))
  {
    hide Call, HasValue, Seen, Get, Fine, AllReached, Sets, Blank, Written, Named;
    var k := assigns[n].name;
    if HasValue(o, c.sh, k) || forall j :: 0 <= j < n ==> !Sets(assigns[j].value, k) {
      CallRestoresStart(o, c, assigns, args, io, n);
    } else if SetEmpty(o, c.sh, k) {
      EmptyRestoredExactly(o, c, assigns, args, io, n);
    } else {
      UnsetRestoredExactly(o, c, assigns, args, io, n);
    }
  }

  /** a=${b:=1} b=2 with b unset or empty: whatever the command is, b is 1 afterwards. */
  lemma EarlierDefaultPersists(o: Oracle, c: Conf, args: seq<string>, io: IO)
    requires args != [] && o.atoi("b").None? && |c.sh.vars| < MAX_VARS
    requires Get(c.sh.vars, "b") == UNSET || Get(c.sh.vars, "b") == Variable("", true, false)
    ensures var first := Assign("a", [Default("b", [Lit("1")])], false, false);
            var assigns := [first, Assign("b", [Lit("2")], false, false)];
            && Seen(Call(o, c, assigns, args, io).c.sh.vars, "b") == Some(Variable("1", true, false))
            && Seen(c.sh.vars, "b") == if Get(c.sh.vars, "b").isSet then Some(Variable("", true, false)) else None
  {
    hide Call;
    var word: seq<Part> := [Default("b", [Lit("1")])];
    var assigns := [Assign("a", word, false, false), Assign("b", [Lit("2")], false, false)];
    var d := c.(sh := c.sh.(vars := c.sh.vars["b" := Variable("1", true, false)]));
    assert Expand(o, c, word, io) == Out(d, None, [["1"]]) by { OneDefault(o, c, io); }
    assert Glued([["1"]]) == "1" by { assert [["1"]][1..] == []; }
    var e := Assignment(o, c, assigns[0], true, io);
    assert e.err.None? && Get(e.c.sh.vars, "b") == Variable("1", true, false);
    assert Reached(o, e.c, assigns[1..], io, 0) == e.c;
    assert Reached(o, c, assigns, io, 1) == e.c;
    assert Fine(o, e.c, assigns[1..], io, 0);
    assert FirstTo(o, c, assigns, io, 1);
    CallRestores(o, c, assigns, args, io, 1);
  }

  lemma OneDefault(o: Oracle, c: Conf, io: IO)
    requires o.atoi("b").None? && |c.sh.vars| < MAX_VARS
    requires Get(c.sh.vars, "b").text == "" && !Get(c.sh.vars, "b").exported
    ensures Expand(o, c, [Default("b", [Lit("1")])], io) ==
            Out(c.(sh := c.sh.(vars := c.sh.vars["b" := Variable("1", true, false)])), None, [["1"]])
  {
    var one: seq<Part> := [Lit("1")];
    var p := Default("b", one);
    assert one[1..] == [] && [["1"]] + [] == [["1"]];
    assert Expand(o, c, one, io) == Out(c, None, [["1"]]);
    assert Glued([["1"]]) == "1" by { assert [["1"]][1..] == []; }
    assert Spaced(Lookup(o, c.sh, "b")) == "";
    var r := ExpandPart(o, c, p, io);
    assert r == Out(c.(sh := c.sh.(vars := c.sh.vars["b" := Variable("1", true, false)])), None, ["1"]);
    assert [p][1..] == [];
    assert Expand(o, r.c, [], io) == Out(r.c, None, []);
    assert [["1"]] + [] == [["1"]];
  }

  // ---------------------------------------------------------------------
  // Copies of the shell
  // ---------------------------------------------------------------------

  /** Nothing but the status fields differs. */
  predicate SameButStatus(a: Sh, b: Sh) { b == a.(status := b.status, subStatus := b.subStatus) }

  /** A statement that is a subshell or a pipeline, without redirections of its
      own, leaves the shell as it was, whatever runs inside. */
  lemma CopiesIsolate(o: Oracle, c: Conf, x: Stmt, io: IO, all: bool)
    requires (x.cmd.Subshell? || x.cmd.Pipe?) && x.redirs == []
    ensures SameButStatus(c.sh, Statement(o, c, x, io, all).c.sh)
  {
    hide List, Statement;
    StatementUnfold(o, c, x, io, all);
    var s := Step(o, c);
    if s.err.None? {
      var c1 := s.c.(sh := s.c.sh.(subStatus := 0));
      var io' := if all then io.(err := io.out) else io;
      assert Redirect(o, c1, [], io, []) == Out(c1, None, Redirected(io, []));
      assert Command(o, c1, x.cmd, io').c.sh == c1.sh;
      var d := CommandLine(o, c1, x, [], io, all);
      assert CloseAll(o, d.c, [], d.err, d.value) == d;
    }
  }

  lemma StatementUnfold(o: Oracle, c: Conf, x: Stmt, io: IO, all: bool)
    ensures Statement(o, c, x, io, all) ==
              var s := Step(o, c); if s.err.Some? then Out(s.c, s.err, 1) else Perform(o, s.c, x, io, all)
  {
  }

  /** Expanding a word without ${x:=...}, whatever its substitutions run, changes
      nothing of the shell but the status of the last substitution. */
  lemma {:induction false} ExpandIsolates(o: Oracle, c: Conf, w: seq<Part>, io: IO)
    requires forall p :: p in w ==> !p.Default?
    ensures Expand(o, c, w, io).c.sh == c.sh.(subStatus := Expand(o, c, w, io).c.sh.subStatus)
    decreases |w|
  {
    hide Substitute, Lookup;
    if w != [] {
      assert w[0] in w && forall p :: p in w[1..] ==> p in w;
      var p := ExpandPart(o, c, w[0], io);
      if w[0].Subst? { SubstitutionIsolates(o, c, w[0].body, io); }
      assert p.c.sh == c.sh.(subStatus := p.c.sh.subStatus);
      if p.err.None? { ExpandIsolates(o, p.c, w[1..], io); }
    }
  }
}
