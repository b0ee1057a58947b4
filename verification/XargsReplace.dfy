/** When xargs loses items: what the command lines tell about the items they were
    assembled from. */
module XargsReplace {
  import opened Store
  import opened ShellState
  import opened Xargs

  // ---------------------------------------------------------------------
  // Replacing in one word
  // ---------------------------------------------------------------------

  predicate Occurs(what: string, s: string) {
    exists k :: 0 <= k <= |s| && what <= s[k..]
  }

  lemma OccursLater(what: string, s: string)
    requires s != "" && what != ""
    ensures Occurs(what, s) <==> what <= s || Occurs(what, s[1..])
  {
    assert s[0..] == s;
    if what <= s { assert what <= s[0..]; }
    if k :| 0 <= k <= |s[1..]| && what <= s[1..][k..] {
      assert s[1..][k..] == s[k + 1..];
      assert what <= s[k + 1..];
    }
    if k :| 0 <= k <= |s| && what <= s[k..] {
      if k > 0 { assert s[1..][k - 1..] == s[k..]; }
    }
  }

  lemma {:induction false} ReplaceNothing(s: string, what: string, put: string)
    requires what != "" && !Occurs(what, s)
    ensures ReplaceAll(s, what, put) == s
    decreases |s|
  {
    if s != "" {
      OccursLater(what, s);
      ReplaceNothing(s[1..], what, put);
    }
  }

  lemma {:induction false} ReplaceLonger(s: string, what: string, x: string, y: string)
    requires what != "" && |x| < |y|
    ensures |ReplaceAll(s, what, x)| <= |ReplaceAll(s, what, y)|
    ensures Occurs(what, s) ==> |ReplaceAll(s, what, x)| < |ReplaceAll(s, what, y)|
    decreases |s|
  {
    if s != "" {
      OccursLater(what, s);
      if what <= s { ReplaceLonger(s[|what|..], what, x, y); } else { ReplaceLonger(s[1..], what, x, y); }
    }
  }

  lemma {:induction false} ReplaceSameLength(s: string, what: string, x: string, y: string)
    requires what != "" && |x| == |y| && Occurs(what, s) && ReplaceAll(s, what, x) == ReplaceAll(s, what, y)
    ensures x == y
    decreases |s|
  {
    if s != "" {
      OccursLater(what, s);
      if what <= s {
        assert (x + ReplaceAll(s[|what|..], what, x))[..|x|] == x;
        assert (y + ReplaceAll(s[|what|..], what, y))[..|y|] == y;
      } else {
        assert ([s[0]] + ReplaceAll(s[1..], what, x))[1..] == ReplaceAll(s[1..], what, x);
        assert ([s[0]] + ReplaceAll(s[1..], what, y))[1..] == ReplaceAll(s[1..], what, y);
        ReplaceSameLength(s[1..], what, x, y);
      }
    }
  }

  /** A word in which R occurs tells what R was replaced by. */
  lemma ReplaceTells(s: string, what: string, x: string, y: string)
    requires what != "" && Occurs(what, s) && ReplaceAll(s, what, x) == ReplaceAll(s, what, y)
    ensures x == y
  {
    if |x| < |y| {
      ReplaceLonger(s, what, x, y);
    } else if |y| < |x| {
      ReplaceLonger(s, what, y, x);
    } else {
      ReplaceSameLength(s, what, x, y);
    }
  }

  // ---------------------------------------------------------------------
  // Replacing in a command line
  // ---------------------------------------------------------------------

  /** R occurs in one of the words. */
  predicate Used(words: seq<string>, what: string) { exists w :: w in words && Occurs(what, w) }

  lemma {:induction false} ReplaceInNothing(words: seq<string>, what: string, put: string)
    requires what != "" && !Used(words, what)
    ensures ReplaceIn(words, what, put) == words
    decreases |words|
  {
    if words != [] {
      assert words[0] in words && forall w :: w in words[1..] ==> w in words;
      ReplaceNothing(words[0], what, put);
      ReplaceInNothing(words[1..], what, put);
      assert [words[0]] + words[1..] == words;
    }
  }

  lemma {:induction false} ReplaceInTells(words: seq<string>, what: string, x: string, y: string)
    requires what != "" && Used(words, what) && ReplaceIn(words, what, x) == ReplaceIn(words, what, y)
    ensures x == y
    decreases |words|
  {
    if words != [] {
      assert forall w :: w in words ==> w == words[0] || w in words[1..];
      if Occurs(what, words[0]) {
        assert ReplaceIn(words, what, x)[0] == ReplaceAll(words[0], what, x);
        assert ReplaceIn(words, what, y)[0] == ReplaceAll(words[0], what, y);
        ReplaceTells(words[0], what, x, y);
      } else {
        assert ReplaceIn(words, what, x)[1..] == ReplaceIn(words[1..], what, x);
        assert ReplaceIn(words, what, y)[1..] == ReplaceIn(words[1..], what, y);
        ReplaceInTells(words[1..], what, x, y);
      }
    }
  }

  /** A command line for one item tells the item exactly when R occurs in a word
      after the first; otherwise it is the bare command. */
  lemma LineTellsItem(cmd: seq<string>, replace: string, x: string, y: string)
    requires cmd != [] && replace != ""
    ensures Used(cmd[1..], replace) ==> (Argv(cmd, replace, [x]) == Argv(cmd, replace, [y]) <==> x == y)
    ensures !Used(cmd[1..], replace) ==> Argv(cmd, replace, [x]) == cmd
  {
    var tail := cmd[1..];
    assert ([cmd[0]] + ReplaceIn(tail, replace, x))[1..] == ReplaceIn(tail, replace, x);
    assert ([cmd[0]] + ReplaceIn(tail, replace, y))[1..] == ReplaceIn(tail, replace, y);
    if Used(tail, replace) {
      if Argv(cmd, replace, [x]) == Argv(cmd, replace, [y]) { ReplaceInTells(tail, replace, x, y); }
    } else {
      ReplaceInNothing(tail, replace, x);
      assert [cmd[0]] + tail == cmd;
    }
  }

  // ---------------------------------------------------------------------
  // Whole runs
  // ---------------------------------------------------------------------

  lemma {:induction false} FewerLines(cmd: seq<string>, replace: string, per: nat, items: seq<string>)
    requires cmd != []
    ensures |Argvs(cmd, replace, per, items)| <= if items == [] then 1 else |items|
    ensures per != 1 && |items| > 1 ==> |Argvs(cmd, replace, per, items)| < |items|
    decreases |items|
  {
    hide Argvs, Argv;
    var batch := Next(per, items);
    ArgvsUnfold(cmd, replace, per, items);
    if batch != items { FewerLines(cmd, replace, per, items[|batch|..]); }
  }

  lemma OneLine(cmd: seq<string>, replace: string, per: nat, item: string)
    requires cmd != []
    ensures Argvs(cmd, replace, per, [item]) == [Argv(cmd, replace, [item])]
  {
    ArgvsUnfold(cmd, replace, per, [item]);
  }

  /** Every item has a command line of its own exactly when batches are single or
      there is one item. */
  lemma EachItemItsLine(cmd: seq<string>, replace: string, per: nat, items: seq<string>)
    requires cmd != [] && items != []
    ensures (var plan := Argvs(cmd, replace, per, items);
             |plan| == |items| && forall i :: 0 <= i < |items| ==> plan[i] == Argv(cmd, replace, [items[i]]))
            <==> per == 1 || |items| == 1
  {
    hide Argvs, Argv;
    if |items| == 1 {
      assert items == [items[0]];
      OneLine(cmd, replace, per, items[0]);
    } else if per == 1 {
      forall i | 0 <= i < |items|
        ensures |Argvs(cmd, replace, 1, items)| == |items|
        ensures Argvs(cmd, replace, 1, items)[i] == Argv(cmd, replace, [items[i]])
      {
        ArgvsReplace(cmd, replace, items, i);
      }
      assert |Argvs(cmd, replace, 1, items)| == |items| by { ArgvsReplace(cmd, replace, items, 0); }
    } else {
      FewerLines(cmd, replace, per, items);
    }
  }

  /** The command lines determine the items: no other list of as many items is
      assembled into the same ones. */
  ghost predicate Tells(cmd: seq<string>, replace: string, per: nat, items: seq<string>)
    requires cmd != []
  {
    forall other :: |other| == |items| && Argvs(cmd, replace, per, other) == Argvs(cmd, replace, per, items) ==>
        other == items
  }

  /** Where R occurs nowhere after the first word, the items leave no trace. */
  lemma {:induction false} UnusedLeavesNoTrace(cmd: seq<string>, replace: string, per: nat, a: seq<string>,
                                               b: seq<string>)
    requires cmd != [] && replace != "" && !Used(cmd[1..], replace) && |a| == |b|
    ensures Argvs(cmd, replace, per, a) == Argvs(cmd, replace, per, b)
    decreases |a|
  {
    hide Argvs, Used;
    var x, y := Next(per, a), Next(per, b);
    ArgvsUnfold(cmd, replace, per, a);
    ArgvsUnfold(cmd, replace, per, b);
    BareLine(cmd, replace, x);
    BareLine(cmd, replace, y);
    if x != a { UnusedLeavesNoTrace(cmd, replace, per, a[|x|..], b[|y|..]); }
  }

  /** The bare command: for a batch that is not single, or where R occurs nowhere. */
  lemma BareLine(cmd: seq<string>, replace: string, batch: seq<string>)
    requires cmd != [] && replace != "" && (|batch| != 1 || !Used(cmd[1..], replace))
    ensures Argv(cmd, replace, batch) == cmd
  {
    if |batch| == 1 {
      assert batch == [batch[0]];
      LineTellsItem(cmd, replace, batch[0], batch[0]);
    }
  }

  /** With batches of several items the first batch leaves no trace. */
  lemma FirstBatchLost(cmd: seq<string>, replace: string, per: nat, items: seq<string>, other: string)
    requires cmd != [] && replace != "" && per != 1 && |items| > 1
    ensures Argvs(cmd, replace, per, items[0 := other]) == Argvs(cmd, replace, per, items)
  {
    hide Argvs, Argv, Used;
    var items' := items[0 := other];
    var x, y := Next(per, items), Next(per, items');
    ArgvsUnfold(cmd, replace, per, items);
    ArgvsUnfold(cmd, replace, per, items');
    BareLine(cmd, replace, x);
    BareLine(cmd, replace, y);
    assert items[|x|..] == items'[|x|..];
  }

  lemma SinglesTell(cmd: seq<string>, replace: string, items: seq<string>, other: seq<string>)
    requires cmd != [] && replace != "" && Used(cmd[1..], replace) && |other| == |items|
    requires Argvs(cmd, replace, 1, other) == Argvs(cmd, replace, 1, items)
    ensures other == items
  {
    hide Argvs, Argv, Used;
    forall i | 0 <= i < |items| ensures other[i] == items[i] {
      ArgvsReplace(cmd, replace, items, i);
      ArgvsReplace(cmd, replace, other, i);
      LineTellsItem(cmd, replace, other[i], items[i]);
    }
  }

  /** No item is lost, exactly: when there is no -I; or when R occurs in a word of
      the command after the first, and batches are single or there is one item. */
  lemma NoItemLost(cmd: seq<string>, replace: string, per: nat, items: seq<string>)
    requires cmd != [] && items != []
    ensures Tells(cmd, replace, per, items) <==>
            replace == "" || (Used(cmd[1..], replace) && (per == 1 || |items| == 1))
  {
    hide Argvs, Argv, Used, Tails;
    if replace == "" {
      forall other | |other| == |items| && Argvs(cmd, replace, per, other) == Argvs(cmd, replace, per, items)
        ensures other == items
      {
        ArgvsConserve(cmd, per, items);
        ArgvsConserve(cmd, per, other);
      }
    } else {
      var changed := items[0] + "x";
      var other := items[0 := changed];
      assert other[0] != items[0];
      if !Used(cmd[1..], replace) {
        UnusedLeavesNoTrace(cmd, replace, per, items, other);
        assert !Tells(cmd, replace, per, items);
      } else if per == 1 {
        forall other | |other| == |items| && Argvs(cmd, replace, per, other) == Argvs(cmd, replace, per, items)
          ensures other == items
        {
          SinglesTell(cmd, replace, items, other);
        }
      } else if |items| == 1 {
        forall other | |other| == |items| && Argvs(cmd, replace, per, other) == Argvs(cmd, replace, per, items)
          ensures other == items
        {
          assert items == [items[0]] && other == [other[0]];
          OneLine(cmd, replace, per, items[0]);
          OneLine(cmd, replace, per, other[0]);
          LineTellsItem(cmd, replace, other[0], items[0]);
        }
      } else {
        FirstBatchLost(cmd, replace, per, items, changed);
        assert !Tells(cmd, replace, per, items);
      }
    }
  }

  // ---------------------------------------------------------------------
  // Losses
  // ---------------------------------------------------------------------

  /** The order of the options decides: with -n after -I both items are lost, with
      -n before it none is. */
  lemma LaterCountDrops(o: Oracle)
    requires o.atoi("2") == Some(2)
    ensures ParseOptions(o, ["-I", "{}", "-n", "2"], PLAIN) == Chosen(PLAIN.(replace := "{}", per := 2))
    ensures ParseOptions(o, ["-n", "2", "-I", "{}"], PLAIN) == Chosen(PLAIN.(replace := "{}", per := 1))
    ensures Argvs(["cat", "{}"], "{}", 2, ["a", "b"]) == [["cat", "{}"]]
    ensures Argvs(["cat", "{}"], "{}", 1, ["a", "b"]) == [["cat", "a"], ["cat", "b"]]
  {
    CountAfter(o);
    CountBefore(o);
    CatLines();
  }

  lemma CountAfter(o: Oracle)
    requires o.atoi("2") == Some(2)
    ensures ParseOptions(o, ["-I", "{}", "-n", "2"], PLAIN) == Chosen(PLAIN.(replace := "{}", per := 2))
  {
    assert ["-I", "{}", "-n", "2"][1..][1..] == ["-n", "2"] && ["-n", "2"][1..][1..] == [];
    assert "-n"[..2] == "-n" && "-I"[..2] == "-I" && "-n"[2..] == "" && "-I"[2..] == "";
    var q := PLAIN.(replace := "{}", per := 1);
    assert ParseOptions(o, [], q.(per := 2)) == Chosen(q.(per := 2));
    assert ParseOptions(o, ["-n", "2"], q) == Chosen(q.(per := 2));
  }

  lemma CountBefore(o: Oracle)
    requires o.atoi("2") == Some(2)
    ensures ParseOptions(o, ["-n", "2", "-I", "{}"], PLAIN) == Chosen(PLAIN.(replace := "{}", per := 1))
  {
    assert ["-n", "2", "-I", "{}"][1..][1..] == ["-I", "{}"] && ["-I", "{}"][1..][1..] == [];
    assert "-n"[..2] == "-n" && "-I"[..2] == "-I" && "-n"[2..] == "" && "-I"[2..] == "";
    var q := PLAIN.(replace := "{}", per := 1);
    assert ParseOptions(o, [], q) == Chosen(q);
    assert ParseOptions(o, ["-I", "{}"], PLAIN.(per := 2)) == Chosen(q);
  }

  lemma CatLines()
    ensures Argvs(["cat", "{}"], "{}", 2, ["a", "b"]) == [["cat", "{}"]]
    ensures Argvs(["cat", "{}"], "{}", 1, ["a", "b"]) == [["cat", "a"], ["cat", "b"]]
  {
    hide Argvs;
    ArgvsUnfold(["cat", "{}"], "{}", 2, ["a", "b"]);
    ArgvsUnfold(["cat", "{}"], "{}", 1, ["a", "b"]);
    assert ["a", "b"][1..] == ["b"];
    OneLine(["cat", "{}"], "{}", 1, "b");
    CatLine("a");
    CatLine("b");
  }

  lemma CatLine(item: string)
    ensures Argv(["cat", "{}"], "{}", [item]) == ["cat", item]
  {
    assert ["cat", "{}"][1..] == ["{}"] && ["{}"][1..] == [] && "{}"[2..] == "";
    assert ReplaceAll("{}", "{}", item) == item + "" == item;
    assert ReplaceIn(["{}"], "{}", item) == [item];
  }

  /** -I without a command: the default command mentions no item at all. */
  lemma DefaultCommandDrops(o: Oracle, item: string)
    ensures ParseOptions(o, ["-I", "{}"], PLAIN) == Chosen(PLAIN.(replace := "{}", per := 1))
    ensures Argvs(Command(PLAIN.(replace := "{}", per := 1)), "{}", 1, [item]) == [["echo"]]
  {
    assert ["-I", "{}"][1..][1..] == [];
    assert "-I"[..2] == "-I" && "-I"[2..] == "";
    assert ParseOptions(o, [], PLAIN.(replace := "{}", per := 1)) == Chosen(PLAIN.(replace := "{}", per := 1));
    OneLine(["echo"], "{}", 1, item);
    assert ["echo"][1..] == [];
    assert Argv(["echo"], "{}", [item]) == ["echo"] + [] == ["echo"];
  }
}
