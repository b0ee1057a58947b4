/** What xargs is given: items written out in each of the input formats, and
    options written out as words, are read back. */
module XargsInput {
  import opened Store
  import opened ShellState
  import opened XargsSplit
  import opened Xargs

  // ---------------------------------------------------------------------
  // Items
  // ---------------------------------------------------------------------

  /** The items, each followed by c. */
  function Terminated(items: seq<string>, c: char): string {
    if items == [] then "" else items[0] + [c] + Terminated(items[1..], c)
  }

  /** The items with c between them. */
  function Separated(items: seq<string>, c: char): string
    requires items != []
  {
    if |items| == 1 then items[0] else items[0] + [c] + Separated(items[1..], c)
  }

  lemma {:induction false} TerminatedSeparated(items: seq<string>, c: char)
    requires items != []
    ensures Terminated(items, c) == Separated(items, c) + [c]
    decreases |items|
  {
    if |items| == 1 {
      assert items[1..] == [];
    } else {
      TerminatedSeparated(items[1..], c);
    }
  }

  predicate Free(items: seq<string>, c: char) { forall x :: x in items ==> c !in x }

  lemma {:induction false} SplitOnFree(s: string, c: char)
    requires c !in s
    ensures SplitOn(s, c) == [s]
    decreases |s|
  {
    if s != "" {
      SplitOnFree(s[1..], c);
      assert [s[0]] + s[1..] == s;
    }
  }

  lemma {:induction false} SplitOnAt(s: string, c: char, t: string)
    requires c !in s
    ensures SplitOn(s + [c] + t, c) == [s] + SplitOn(t, c)
    decreases |s|
  {
    var all := s + [c] + t;
    if s == "" {
      assert all[0] == c && all[1..] == t;
    } else {
      SplitOnAt(s[1..], c, t);
      assert all[0] == s[0] && all[1..] == s[1..] + [c] + t;
      assert [s[0]] + s[1..] == s;
    }
  }

  lemma {:induction false} SplitOnSeparated(items: seq<string>, c: char)
    requires items != [] && Free(items, c)
    ensures SplitOn(Separated(items, c), c) == items
    decreases |items|
  {
    assert items[0] in items;
    if |items| == 1 {
      SplitOnFree(items[0], c);
      assert items == [items[0]];
    } else {
      assert Free(items[1..], c) by { assert forall x :: x in items[1..] ==> x in items; }
      SplitOnSeparated(items[1..], c);
      SplitOnAt(items[0], c, Separated(items[1..], c));
      assert [items[0]] + items[1..] == items;
    }
  }

  lemma TrimTerminated(items: seq<string>, c: char)
    requires items != []
    ensures Terminated(items, c) != "" && TrimSuffix(Terminated(items, c), c) == Separated(items, c)
  {
    TerminatedSeparated(items, c);
  }

  /** With -0, any items without NUL, each followed by one, are read back: blanks,
      quotes, newlines and empty items included. */
  lemma NulItems(opts: Options, items: seq<string>)
    requires opts.nul && Free(items, '\0')
    ensures ItemsOf(opts, Terminated(items, '\0')) == Items(items)
  {
    hide Terminated, Separated, TrimSuffix;
    if items == [] {
      assert Terminated(items, '\0') == "" by { NoItems('\0'); }
    } else {
      TrimTerminated(items, '\0');
      SplitOnSeparated(items, '\0');
    }
  }

  lemma NoItems(c: char)
    ensures Terminated([], c) == ""
  {
  }

  predicate Blanks(s: string) { forall c :: c in s ==> c == ' ' || c == '\t' }

  lemma {:induction false} TrimIndent(indent: string, x: string)
    requires Blanks(indent) && (x == "" || (x[0] != ' ' && x[0] != '\t'))
    ensures TrimBlanks(indent + x) == x
    decreases |indent|
  {
    if indent == "" {
      assert indent + x == x;
    } else {
      assert indent[0] in indent && forall c :: c in indent[1..] ==> c in indent;
      assert (indent + x)[1..] == indent[1..] + x;
      TrimIndent(indent[1..], x);
    }
  }

  /** Each item on a line, with blanks before it. */
  function Indented(indents: seq<string>, items: seq<string>): seq<string>
    requires |indents| == |items|
  {
    if items == [] then [] else [indents[0] + items[0]] + Indented(indents[1..], items[1..])
  }

  /** What is left of the lines of items that are not empty. */
  function Kept(items: seq<string>): seq<string> {
    if items == [] then [] else (if items[0] == "" then [] else [items[0]]) + Kept(items[1..])
  }

  predicate Unindented(items: seq<string>) {
    forall x :: x in items ==> x == "" || (x[0] != ' ' && x[0] != '\t')
  }

  lemma {:induction false} LinesKeep(indents: seq<string>, items: seq<string>)
    requires |indents| == |items| && (forall s :: s in indents ==> Blanks(s)) && Unindented(items)
    ensures Lines(Indented(indents, items)) == Kept(items)
    decreases |items|
  {
    if items != [] {
      assert indents[0] in indents && items[0] in items;
      assert forall s :: s in indents[1..] ==> s in indents;
      assert forall x :: x in items[1..] ==> x in items;
      TrimIndent(indents[0], items[0]);
      LinesKeep(indents[1..], items[1..]);
      assert Indented(indents, items)[1..] == Indented(indents[1..], items[1..]);
    }
  }

  lemma {:induction false} IndentedFree(indents: seq<string>, items: seq<string>, c: char)
    requires |indents| == |items| && Free(indents, c) && Free(items, c)
    ensures Free(Indented(indents, items), c) && |Indented(indents, items)| == |items|
    decreases |items|
  {
    if items != [] {
      assert indents[0] in indents && items[0] in items;
      assert forall s :: s in indents[1..] ==> s in indents;
      assert forall x :: x in items[1..] ==> x in items;
      IndentedFree(indents[1..], items[1..], c);
    }
  }

  /** With -I, every line is an item, blanks inside it and quotes included; blanks
      before it are dropped, and so are lines with nothing else. */
  lemma LineItems(opts: Options, indents: seq<string>, items: seq<string>)
    requires !opts.nul && opts.replace != "" && |indents| == |items| > 0
    requires (forall s :: s in indents ==> Blanks(s)) && Unindented(items) && Free(items, '\n')
    ensures ItemsOf(opts, Terminated(Indented(indents, items), '\n')) == Items(Kept(items))
  {
    hide Terminated, Separated, TrimSuffix;
    var lines := Indented(indents, items);
    IndentedFree(indents, items, '\n');
    TrimTerminated(lines, '\n');
    SplitOnSeparated(lines, '\n');
    LinesKeep(indents, items);
  }

  // ---------------------------------------------------------------------
  // Options
  // ---------------------------------------------------------------------

  /** Options as a user writes them: -n after -I, where it counts. */
  function Written(o: Oracle, opts: Options): seq<string> {
    (if opts.nul then ["-0"] else []) + ((if opts.skipEmpty then ["-r"] else []) + WithTrace(o, opts))
  }

  function WithTrace(o: Oracle, opts: Options): seq<string> {
    (if opts.trace then ["-t"] else []) + WithReplace(o, opts)
  }

  function WithReplace(o: Oracle, opts: Options): seq<string> {
    (if opts.replace != "" then ["-I", opts.replace] else []) + WithCount(o, opts)
  }

  function WithCount(o: Oracle, opts: Options): seq<string> {
    (if opts.per > 0 then ["-n", o.itoa(opts.per)] else []) + (["--"] + opts.cmd)
  }

  lemma Flag(o: Oracle, c: char, rest: seq<string>, opts: Options)
    requires c == '0' || c == 'r' || c == 't'
    ensures ParseOptions(o, [['-', c]] + rest, opts) ==
            ParseOptions(o, rest, if c == '0' then opts.(nul := true)
                                  else if c == 'r' then opts.(skipEmpty := true) else opts.(trace := true))
  {
    var a := ['-', c];
    var args := [a] + rest;
    assert args[0] == a && args[1..] == rest;
    assert !("--" <= a) && "-" <= a && a != "-";
    assert a[..2] == a && a[2..] == "";
    assert a == "-0" <==> c == '0';
    assert a == "-r" <==> c == 'r';
    assert a == "-t" <==> c == 't';
    assert a != "-n" && a != "-I" by { assert a[1] == c; }
    OptionTurn(o, args, opts);
    hide ParseOptions;
  }

  lemma ReplaceFlag(o: Oracle, text: string, rest: seq<string>, opts: Options)
    ensures ParseOptions(o, ["-I", text] + rest, opts) == ParseOptions(o, rest, opts.(replace := text, per := 1))
  {
    var args := ["-I", text] + rest;
    assert args[0] == "-I" && args[1..] == [text] + rest && args[1..][0] == text && args[1..][1..] == rest;
    assert "-I"[..2] == "-I" && "-I"[2..] == "";
    OptionTurn(o, args, opts);
    hide ParseOptions;
  }

  lemma CountFlag(o: Oracle, text: string, rest: seq<string>, opts: Options)
    requires o.atoi(text).Some? && o.atoi(text).value > 0
    ensures ParseOptions(o, ["-n", text] + rest, opts) == ParseOptions(o, rest, opts.(per := o.atoi(text).value))
  {
    var args := ["-n", text] + rest;
    assert args[0] == "-n" && args[1..] == [text] + rest && args[1..][0] == text && args[1..][1..] == rest;
    assert "-n"[..2] == "-n" && "-n"[2..] == "";
    OptionTurn(o, args, opts);
    hide ParseOptions;
  }

  lemma EndFlag(o: Oracle, rest: seq<string>, opts: Options)
    ensures ParseOptions(o, ["--"] + rest, opts) == Chosen(opts.(cmd := rest))
  {
    var args := ["--"] + rest;
    assert args[0] == "--" && args[1..] == rest;
    OptionTurn(o, args, opts);
  }

  lemma CountReadBack(o: Oracle, opts: Options, q: Options)
    requires opts.per > 0 ==> o.atoi(o.itoa(opts.per)) == Some(opts.per)
    ensures ParseOptions(o, WithCount(o, opts), q) ==
            Chosen(q.(per := if opts.per > 0 then opts.per else q.per, cmd := opts.cmd))
  {
    hide ParseOptions;
    var rest := ["--"] + opts.cmd;
    assert [] + rest == rest;
    if opts.per > 0 { CountFlag(o, o.itoa(opts.per), rest, q); }
    EndFlag(o, opts.cmd, if opts.per > 0 then q.(per := opts.per) else q);
  }

  lemma ReplaceReadBack(o: Oracle, opts: Options, q: Options)
    requires opts.replace != "" ==> opts.per > 0
    requires opts.per > 0 ==> o.atoi(o.itoa(opts.per)) == Some(opts.per)
    requires q.replace == "" && q.per == 0
    ensures ParseOptions(o, WithReplace(o, opts), q) ==
            Chosen(q.(per := opts.per, replace := opts.replace, cmd := opts.cmd))
  {
    hide ParseOptions, WithCount;
    assert [] + WithCount(o, opts) == WithCount(o, opts);
    if opts.replace != "" { ReplaceFlag(o, opts.replace, WithCount(o, opts), q); }
    CountReadBack(o, opts, if opts.replace != "" then q.(replace := opts.replace, per := 1) else q);
  }

  lemma TraceReadBack(o: Oracle, opts: Options, q: Options)
    requires opts.replace != "" ==> opts.per > 0
    requires opts.per > 0 ==> o.atoi(o.itoa(opts.per)) == Some(opts.per)
    requires q.replace == "" && q.per == 0 && !q.trace
    ensures ParseOptions(o, WithTrace(o, opts), q) ==
            Chosen(q.(trace := opts.trace, per := opts.per, replace := opts.replace, cmd := opts.cmd))
  {
    hide ParseOptions, WithReplace;
    assert [] + WithReplace(o, opts) == WithReplace(o, opts);
    if opts.trace { Flag(o, 't', WithReplace(o, opts), q); }
    ReplaceReadBack(o, opts, if opts.trace then q.(trace := true) else q);
  }

  /** Options written out are read back, whatever the command's own words are. */
  lemma OptionsReadBack(o: Oracle, opts: Options)
    requires opts.replace != "" ==> opts.per > 0
    requires opts.per > 0 ==> o.atoi(o.itoa(opts.per)) == Some(opts.per)
    ensures ParseOptions(o, Written(o, opts), PLAIN) == Chosen(opts)
  {
    hide ParseOptions, WithTrace;
    var q := if opts.nul then PLAIN.(nul := true) else PLAIN;
    var rest := (if opts.skipEmpty then ["-r"] else []) + WithTrace(o, opts);
    assert [] + rest == rest && [] + WithTrace(o, opts) == WithTrace(o, opts);
    if opts.nul { Flag(o, '0', rest, PLAIN); }
    if opts.skipEmpty { Flag(o, 'r', WithTrace(o, opts), q); }
    TraceReadBack(o, opts, if opts.skipEmpty then q.(skipEmpty := true) else q);
  }
}
