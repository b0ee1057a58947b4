/** The xargs input tokenizer: blanks and newlines separate items, quotes group,
    a backslash escapes the next character. */
module XargsSplit {

  datatype Fault = BackslashAtEnd | UnmatchedSingle | UnmatchedDouble

  datatype Items = Items(items: seq<string>) | Bad(fault: Fault)

  predicate IsBlank(c: char) { c == ' ' || c == '\t' || c == '\n' }
  predicate IsQuote(c: char) { c == '\'' || c == '"' }

  /** strings.IndexByte */
  function IndexOf(s: string, c: char): (i: int)
    ensures -1 <= i < |s|
    ensures i >= 0 ==> s[i] == c && c !in s[..i]
    ensures i < 0 ==> c !in s
  {
    if s == "" then -1
    else if s[0] == c then 0
    else
      var i := IndexOf(s[1..], c);
      assert i >= 0 ==> s[..i + 1] == [s[0]] + s[1..][..i];
      if i < 0 then -1 else i + 1
  }

  function Unmatched(q: char): Fault { if q == '"' then UnmatchedDouble else UnmatchedSingle }

  function Before(xs: seq<string>, r: Items): Items {
    match r case Items(ys) => Items(xs + ys) case Bad(_) => r
  }

  /** What is still to come from s, with `cur` collected of the current item. */
  function Scan(s: string, cur: string, inItem: bool): Items
    decreases |s|
  {
    if s == "" then Items(if inItem then [cur] else [])
    else if s[0] == '\\' then
      if |s| == 1 then Bad(BackslashAtEnd) else Scan(s[2..], cur + [s[1]], true)
    else if IsQuote(s[0]) then
      var end := IndexOf(s[1..], s[0]);
      if end < 0 || '\n' in s[1..1 + end] then Bad(Unmatched(s[0]))
      else Scan(s[end + 2..], cur + s[1..1 + end], true)
    else if IsBlank(s[0]) then
      if inItem then Before([cur], Scan(s[1..], "", false)) else Scan(s[1..], "", false)
    else Scan(s[1..], cur + [s[0]], true)
  }

  function Tokenized(input: string): Items { Scan(input, "", false) }

  /** One turn of the scan. */
  lemma ScanIs(s: string, cur: string, inItem: bool)
    requires s != ""
    ensures s[0] == '\\' ==>
              Scan(s, cur, inItem) == if |s| == 1 then Bad(BackslashAtEnd) else Scan(s[2..], cur + [s[1]], true)
    ensures IsQuote(s[0]) ==>
              var end := IndexOf(s[1..], s[0]);
              Scan(s, cur, inItem) == if end < 0 || '\n' in s[1..1 + end] then Bad(Unmatched(s[0]))
                                      else Scan(s[end + 2..], cur + s[1..1 + end], true)
    ensures IsBlank(s[0]) ==>
              Scan(s, cur, inItem) == if inItem then Before([cur], Scan(s[1..], "", false)) else Scan(s[1..], "", false)
    ensures s[0] != '\\' && !IsQuote(s[0]) && !IsBlank(s[0]) ==>
              Scan(s, cur, inItem) == Scan(s[1..], cur + [s[0]], true)
  {
  }

  /** The tokenizer's loop over the bytes of its input. */
  method Split(input: string) returns (r: Items)
    ensures r == Tokenized(input)
  {
    hide Scan, Before, IndexOf;
    var items: seq<string> := [];
    var cur := "";
    var inItem := false;
    var i := 0;
    assert input[0..] == input;
    BeforeNothing(Scan(input, "", false));
    while i < |input|
      invariant 0 <= i <= |input|
      invariant !inItem ==> cur == ""
      invariant Tokenized(input) == Before(items, Scan(input[i..], cur, inItem))
    {
      var c := input[i];
      ghost var s := input[i..];
      ScanIs(s, cur, inItem);
      assert s[0] == c && s[1..] == input[i + 1..];
      if c == '\\' {
        i := i + 1;
        if i == |input| {
          BeforeBad(items, BackslashAtEnd);
          return Bad(BackslashAtEnd);
        }
        assert s[2..] == input[i + 1..];
        cur := cur + [input[i]];
        inItem := true;
      } else if c == '\'' || c == '"' {
        var end := IndexOf(input[i + 1..], c);
        if end < 0 || '\n' in input[i + 1..i + 1 + end] {
          assert end >= 0 ==> s[1..1 + end] == input[i + 1..i + 1 + end];
          BeforeBad(items, Unmatched(c));
          return Bad(Unmatched(c));
        }
        assert s[1..1 + end] == input[i + 1..i + 1 + end] && s[end + 2..] == input[i + end + 2..];
        cur := cur + input[i + 1..i + 1 + end];
        inItem := true;
        i := i + end + 1;
      } else if c == ' ' || c == '\t' || c == '\n' {
        if inItem {
          BeforeTwice(items, [cur], Scan(s[1..], "", false));
          items := items + [cur];
          cur := "";
          inItem := false;
        }
      } else {
        cur := cur + [c];
        inItem := true;
      }
      i := i + 1;
    }
    assert input[i..] == "";
    ScanEnd(items, cur, inItem);
    if inItem {
      items := items + [cur];
    }
    r := Items(items);
  }

  lemma BeforeBad(xs: seq<string>, f: Fault)
    ensures Before(xs, Bad(f)) == Bad(f)
  {
  }

  lemma ScanEnd(xs: seq<string>, cur: string, inItem: bool)
    ensures Before(xs, Scan("", cur, inItem)) == Items(if inItem then xs + [cur] else xs)
  {
    assert xs + [] == xs;
  }

  lemma BeforeNothing(r: Items)
    ensures Before([], r) == r
  {
    assert r.Items? ==> [] + r.items == r.items;
  }

  lemma BeforeTwice(xs: seq<string>, ys: seq<string>, r: Items)
    ensures Before(xs, Before(ys, r)) == Before(xs + ys, r)
  {
    assert r.Items? ==> xs + (ys + r.items) == xs + ys + r.items;
  }

  // ---------------------------------------------------------------------
  // The quoting language
  // ---------------------------------------------------------------------

  /** The pieces an input may be written with. */
  datatype Piece = Blank(c: char) | Plain(c: char) | Escaped(c: char) | Quoted(q: char, text: string)

  predicate GoodPiece(p: Piece) {
    match p
    case Blank(c) => IsBlank(c)
    case Plain(c) => !IsBlank(c) && !IsQuote(c) && c != '\\'
    case Escaped(_) => true
    case Quoted(q, text) => IsQuote(q) && q !in text && '\n' !in text
  }

  function Written(p: Piece): string {
    match p
    case Blank(c) => [c]
    case Plain(c) => [c]
    case Escaped(c) => ['\\', c]
    case Quoted(q, text) => [q] + text + [q]
  }

  function Value(p: Piece): string {
    match p
    case Blank(_) => ""
    case Plain(c) => [c]
    case Escaped(c) => [c]
    case Quoted(_, text) => text
  }

  predicate GoodPieces(ps: seq<Piece>) { forall p :: p in ps ==> GoodPiece(p) }

  function WrittenAll(ps: seq<Piece>): string {
    if ps == [] then "" else Written(ps[0]) + WrittenAll(ps[1..])
  }

  /** The items that pieces denote: the values of the maximal runs between blanks. */
  function Denoted(ps: seq<Piece>, cur: string, inItem: bool): seq<string>
    decreases |ps|
  {
    if ps == [] then (if inItem then [cur] else [])
    else if ps[0].Blank? then (if inItem then [cur] else []) + Denoted(ps[1..], "", false)
    else Denoted(ps[1..], cur + Value(ps[0]), true)
  }

  lemma {:induction false} IndexOfQuoted(text: string, q: char, rest: string)
    requires q !in text
    ensures IndexOf(text + [q] + rest, q) == |text|
  {
    var s := text + [q] + rest;
    if text != "" {
      assert s[0] == text[0] && s[1..] == text[1..] + [q] + rest;
      assert text[0] in text && forall c :: c in text[1..] ==> c in text;
      IndexOfQuoted(text[1..], q, rest);
    }
  }

  /** One piece at the front of the input. */
  lemma ScanPiece(p: Piece, rest: string, cur: string, inItem: bool)
    requires GoodPiece(p) && (!inItem ==> cur == "")
    ensures Scan(Written(p) + rest, cur, inItem) ==
              if p.Blank? then Before(if inItem then [cur] else [], Scan(rest, "", false))
              else Scan(rest, cur + Value(p), true)
  {
    hide Scan, IndexOf;
    var s := Written(p) + rest;
    ScanIs(s, cur, inItem);
    BeforeNothing(Scan(rest, "", false));
    match p
    case Blank(c) => assert s[0] == c && s[1..] == rest;
    case Plain(c) => assert s[0] == c && s[1..] == rest;
    case Escaped(c) => assert s[0] == '\\' && s[1] == c && s[2..] == rest;
    case Quoted(q, text) => QuotedPiece(q, text, rest);
  }

  lemma QuotedPiece(q: char, text: string, rest: string)
    requires IsQuote(q) && q !in text
    ensures var s := [q] + text + [q] + rest;
            s[0] == q && IndexOf(s[1..], q) == |text| && s[1..1 + |text|] == text && s[|text| + 2..] == rest
  {
    hide IndexOf;
    assert ([q] + text + [q] + rest)[1..] == text + [q] + rest;
    IndexOfQuoted(text, q, rest);
  }

  lemma ScanRest(rest: string, cur: string, inItem: bool)
    requires (!inItem ==> cur == "") && (rest == "" || IsBlank(rest[0]))
    ensures Scan(rest, cur, inItem) ==
              Before(Denoted([], cur, inItem), if rest == "" then Items([]) else Scan(rest[1..], "", false))
  {
    if rest != "" { BeforeNothing(Scan(rest[1..], "", false)); }
  }

  lemma {:induction false} ScanPieces(ps: seq<Piece>, rest: string, cur: string, inItem: bool)
    requires GoodPieces(ps) && (!inItem ==> cur == "")
    requires rest == "" || IsBlank(rest[0])
    ensures Scan(WrittenAll(ps) + rest, cur, inItem)
         == Before(Denoted(ps, cur, inItem), if rest == "" then Items([]) else Scan(rest[1..], "", false))
    decreases |ps|
  {
    hide Scan, Before, Written, GoodPiece;
    if ps == [] {
      assert WrittenAll(ps) + rest == rest;
      ScanRest(rest, cur, inItem);
    } else {
      var p, t := ps[0], ps[1..];
      assert p in ps && forall x :: x in t ==> x in ps;
      assert WrittenAll(ps) + rest == Written(p) + (WrittenAll(t) + rest);
      ScanPiece(p, WrittenAll(t) + rest, cur, inItem);
      if p.Blank? {
        ScanPieces(t, rest, "", false);
        BeforeTwice(if inItem then [cur] else [], Denoted(t, "", false),
                    if rest == "" then Items([]) else Scan(rest[1..], "", false));
      } else {
        ScanPieces(t, rest, cur + Value(p), true);
      }
    }
  }

  /** The first piece of an input that splits. */
  lemma FirstPiece(s: string, cur: string, inItem: bool) returns (p: Piece, k: nat)
    requires s != "" && Scan(s, cur, inItem).Items?
    ensures 0 < k <= |s| && GoodPiece(p) && s == Written(p) + s[k..]
  {
    hide Scan, Before;
    ScanIs(s, cur, inItem);
    if s[0] == '\\' {
      p, k := Escaped(s[1]), 2;
    } else if IsQuote(s[0]) {
      var end := IndexOf(s[1..], s[0]);
      p, k := Quoted(s[0], s[1..1 + end]), end + 2;
      assert s[1..][..end] == s[1..1 + end];
      assert s[1..][end] == s[0];
    } else if IsBlank(s[0]) {
      p, k := Blank(s[0]), 1;
    } else {
      p, k := Plain(s[0]), 1;
    }
  }

  /** The pieces of an input that splits. */
  lemma {:induction false} Reading(s: string, cur: string, inItem: bool) returns (ps: seq<Piece>)
    requires Scan(s, cur, inItem).Items? && (!inItem ==> cur == "")
    ensures GoodPieces(ps) && WrittenAll(ps) == s
    decreases |s|
  {
    hide Scan, Written, GoodPiece;
    if s == "" {
      ps := [];
    } else {
      var p, k := FirstPiece(s, cur, inItem);
      ScanPiece(p, s[k..], cur, inItem);
      var t := Reading(s[k..], if p.Blank? then "" else cur + Value(p), !p.Blank?);
      ps := [p] + t;
      assert ps[1..] == t;
    }
  }

  /** The tokenizer accepts exactly the inputs that can be written with good
      pieces, and returns exactly what the pieces denote. */
  lemma SplitIsReading(input: string, xs: seq<string>)
    ensures Tokenized(input) == Items(xs)
       <==> exists ps :: GoodPieces(ps) && WrittenAll(ps) == input && Denoted(ps, "", false) == xs
  {
    if Tokenized(input).Items? {
      var ps := Reading(input, "", false);
      SplitOfPieces(ps);
      assert Tokenized(input) == Items(Denoted(ps, "", false));
    }
    forall ps | GoodPieces(ps) && WrittenAll(ps) == input && Denoted(ps, "", false) == xs
      ensures Tokenized(input) == Items(xs)
    {
      SplitOfPieces(ps);
    }
  }

  lemma SplitOfPieces(ps: seq<Piece>)
    requires GoodPieces(ps)
    ensures Tokenized(WrittenAll(ps)) == Items(Denoted(ps, "", false))
  {
    ScanPieces(ps, "", "", false);
    assert WrittenAll(ps) + "" == WrittenAll(ps);
    assert Denoted(ps, "", false) + [] == Denoted(ps, "", false);
  }

  /** Splitting two inputs joined by a blank splits each; it fails exactly when
      the second one fails. */
  lemma SplitJoined(a: string, blank: char, b: string)
    requires Tokenized(a).Items? && IsBlank(blank)
    ensures Tokenized(a + [blank] + b) == Before(Tokenized(a).items, Tokenized(b))
  {
    var ps := Reading(a, "", false);
    SplitOfPieces(ps);
    ScanPieces(ps, [blank] + b, "", false);
    assert a + [blank] + b == WrittenAll(ps) + ([blank] + b);
    assert ([blank] + b)[1..] == b;
  }

  // ---------------------------------------------------------------------
  // Quoting any list of items
  // ---------------------------------------------------------------------

  function EscapeAll(item: string): string {
    if item == "" then "" else ['\\', item[0]] + EscapeAll(item[1..])
  }

  function Quote(item: string): string { if item == "" then "''" else EscapeAll(item) }

  function QuoteList(items: seq<string>): string {
    if items == [] then "" else Quote(items[0]) + " " + QuoteList(items[1..])
  }

  lemma {:induction false} ScanEscaped(item: string, cur: string)
    ensures Scan(EscapeAll(item), cur, true) == Items([cur + item])
  {
    if item == "" {
      assert cur + item == cur;
    } else {
      var s := EscapeAll(item);
      assert s[0] == '\\' && s[1] == item[0] && s[2..] == EscapeAll(item[1..]);
      ScanEscaped(item[1..], cur + [item[0]]);
      assert cur + [item[0]] + item[1..] == cur + item;
    }
  }

  lemma SplitQuoted(item: string)
    ensures Tokenized(Quote(item)) == Items([item])
  {
    if item == "" {
      var p := Quoted('\'', "");
      ScanPiece(p, "", "", false);
      assert Written(p) + "" == "''";
      assert Scan("", "" + Value(p), true) == Items([""]);
    } else {
      var s := EscapeAll(item);
      assert s[0] == '\\' && s[1] == item[0] && s[2..] == EscapeAll(item[1..]);
      ScanEscaped(item[1..], [item[0]]);
      assert [item[0]] + item[1..] == item;
      assert "" + [item[0]] == [item[0]];
    }
  }

  /** Escaping every byte and joining with blanks is undone by splitting, for
      every list of strings. */
  lemma {:induction false} SplitUndoesQuote(items: seq<string>)
    ensures Tokenized(QuoteList(items)) == Items(items)
  {
    if items != [] {
      SplitQuoted(items[0]);
      SplitUndoesQuote(items[1..]);
      SplitJoined(Quote(items[0]), ' ', QuoteList(items[1..]));
      assert [items[0]] + items[1..] == items;
    }
  }
}
