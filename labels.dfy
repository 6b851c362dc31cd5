/**
 * The tolerant reading of a project's `labels` cell in
 * `TimeSeriesVisualizer._aggregate_by_label`: a bracketed list literal, a
 * comma-separated string or a list, with the project's category added as an
 * implicit label.
 */
module Labels {
  import opened Wrappers
  import opened Tables

  /** `str.isspace` for one character: the whitespace `str.strip()` removes. */
  predicate IsSpace(c: char) {
    || ('\t' <= c <= '\r')
    || ('\U{1c}' <= c <= ' ')
    || c == '\U{85}' || c == '\U{a0}' || c == '\U{1680}'
    || ('\U{2000}' <= c <= '\U{200a}')
    || c == '\U{2028}' || c == '\U{2029}' || c == '\U{202f}' || c == '\U{205f}' || c == '\U{3000}'
  }

  function TrimLeft(s: string): (r: string)
    ensures r == [] || !IsSpace(r[0])
    ensures |r| <= |s| && r == s[|s| - |r|..]
    ensures forall i :: 0 <= i < |s| - |r| ==> IsSpace(s[i])
  {
    if s != [] && IsSpace(s[0]) then TrimLeft(s[1..]) else s
  }

  function TrimRight(s: string): (r: string)
    ensures r == [] || !IsSpace(r[|r| - 1])
    ensures |r| <= |s| && r == s[..|r|]
    ensures forall i :: |r| <= i < |s| ==> IsSpace(s[i])
  {
    if s != [] && IsSpace(s[|s| - 1]) then TrimRight(s[..|s| - 1]) else s
  }

  /** `str.strip()`. */
  function Strip(s: string): string {
    TrimRight(TrimLeft(s))
  }

  /** A string `str.strip()` leaves unchanged: no whitespace at either end. */
  predicate Stripped(s: string) {
    s == [] || (!IsSpace(s[0]) && !IsSpace(s[|s| - 1]))
  }

  /** `r` is the slice `s[a..b]` and everything outside it is whitespace. */
  predicate SpaceAround(s: string, r: string, a: int, b: int) {
    && 0 <= a <= b <= |s| && r == s[a..b]
    && (forall i :: 0 <= i < a ==> IsSpace(s[i]))
    && (forall i :: b <= i < |s| ==> IsSpace(s[i]))
  }

  /**
   * `Strip` removes exactly the surrounding whitespace: its result is a slice
   * of the input with no whitespace at either end, everything cut off is
   * whitespace, and a string without surrounding whitespace is left alone.
   */
  lemma StripSpec(s: string)
    ensures Stripped(Strip(s))
    ensures exists a, b :: SpaceAround(s, Strip(s), a, b)
    ensures Stripped(s) ==> Strip(s) == s
  {
    var l := TrimLeft(s);
    var r := TrimRight(l);
    var a := |s| - |l|;
    SliceOfSuffix(s, l, r, a);
    assert SpaceAround(s, r, a, a + |r|);
    if r != [] {
      assert r[0] == l[0];
    }
    if Stripped(s) && s != [] {
      assert l == s;
    }
  }

  /** A prefix `r` of the suffix `l == s[a..]`, followed only by whitespace, leaves whitespace after it in `s`. */
  lemma SliceOfSuffix(s: string, l: string, r: string, a: int)
    requires 0 <= a <= |s| && l == s[a..]
    requires |r| <= |l| && r == l[..|r|]
    requires forall i :: |r| <= i < |l| ==> IsSpace(l[i])
    ensures r == s[a..a + |r|]
    ensures forall i :: a + |r| <= i < |s| ==> IsSpace(s[i])
  {
    forall i | a + |r| <= i < |s|
      ensures IsSpace(s[i])
    {
      assert s[i] == l[i - a];
    }
  }

  lemma StripIdempotent(s: string)
    ensures Strip(Strip(s)) == Strip(s)
  {
    StripSpec(s);
    StripSpec(Strip(s));
  }

  /** `str.split(sep)`: the pieces between occurrences of `sep`, empty pieces included. */
  function Split(s: string, sep: char): (r: seq<string>)
    ensures |r| >= 1
    ensures forall i :: 0 <= i < |r| ==> sep !in r[i]
  {
    if s == [] then [""]
    else if s[0] == sep then [""] + Split(s[1..], sep)
    else
      var rest := Split(s[1..], sep);
      [[s[0]] + rest[0]] + rest[1..]
  }

  /** `sep.join(pieces)`. */
  function Join(pieces: seq<string>, sep: char): string
    requires |pieces| >= 1
  {
    if |pieces| == 1 then pieces[0] else pieces[0] + [sep] + Join(pieces[1..], sep)
  }

  /** Joining the pieces of a split gives the string back. */
  lemma {:induction false} JoinSplit(s: string, sep: char)
    ensures Join(Split(s, sep), sep) == s
  {
    if s != [] {
      JoinSplit(s[1..], sep);
      var rest := Split(s[1..], sep);
      if s[0] != sep {
        if |rest| == 1 {
          assert Split(s, sep) == [[s[0]] + rest[0]];
        } else {
          assert Split(s, sep)[1..] == rest[1..];
        }
      }
    }
  }

  /** Splitting a join of pieces that do not contain the separator gives the pieces back. */
  lemma {:induction false} SplitJoin(pieces: seq<string>, sep: char)
    requires |pieces| >= 1
    requires forall i :: 0 <= i < |pieces| ==> sep !in pieces[i]
    ensures Split(Join(pieces, sep), sep) == pieces
  {
    if |pieces| == 1 {
      SplitNoSep(pieces[0], sep);
    } else {
      SplitJoin(pieces[1..], sep);
      SplitPrefix(pieces[0], Join(pieces[1..], sep), sep);
      assert pieces == [pieces[0]] + pieces[1..];
    }
  }

  lemma {:induction false} SplitNoSep(p: string, sep: char)
    requires sep !in p
    ensures Split(p, sep) == [p]
  {
    if p != [] {
      assert sep !in p[1..] by {
        forall i | 0 <= i < |p[1..]| ensures p[1..][i] != sep {
          assert p[1..][i] == p[i + 1];
        }
      }
      SplitNoSep(p[1..], sep);
      assert [p[0]] + p[1..] == p;
    }
  }

  lemma {:induction false} SplitPrefix(p: string, s: string, sep: char)
    requires sep !in p
    ensures Split(p + [sep] + s, sep) == [p] + Split(s, sep)
  {
    if p == [] {
      assert p + [sep] + s == [sep] + s;
      assert ([sep] + s)[1..] == s;
    } else {
      assert sep !in p[1..] by {
        forall i | 0 <= i < |p[1..]| ensures p[1..][i] != sep {
          assert p[1..][i] == p[i + 1];
        }
      }
      SplitPrefix(p[1..], s, sep);
      assert (p + [sep] + s)[1..] == p[1..] + [sep] + s;
      assert [p[0]] + p[1..] == p;
    }
  }

  /** The comma-separated form: split on `,` and strip each piece. */
  function CommaLabels(s: string): (r: seq<string>)
    ensures |r| == |Split(s, ',')|
    ensures forall i :: 0 <= i < |r| ==> r[i] == Strip(Split(s, ',')[i])
  {
    var pieces := Split(s, ',');
    seq(|pieces|, i requires 0 <= i < |pieces| => Strip(pieces[i]))
  }

  /** The blanks Python's tokenizer accepts between the tokens of a bracketed literal. */
  predicate IsBlank(c: char) {
    c == ' ' || c == '\t' || c == '\U{c}' || c == '\n' || c == '\r'
  }

  function SkipBlanks(s: string): (r: string)
    ensures |r| <= |s| && r == s[|s| - |r|..]
    ensures r == [] || !IsBlank(r[0])
  {
    if s != [] && IsBlank(s[0]) then SkipBlanks(s[1..]) else s
  }

  /** A character that may stand inside a one-line string literal without an escape. */
  predicate PlainChar(c: char, quote: char) {
    c != quote && c != '\\' && c != '\n' && c != '\r'
  }

  /** The length of the run of plain characters at the start of `s`. */
  function PlainRun(s: string, quote: char): (n: nat)
    ensures n <= |s|
    ensures forall i :: 0 <= i < n ==> PlainChar(s[i], quote)
    ensures n == |s| || !PlainChar(s[n], quote)
  {
    if s != [] && PlainChar(s[0], quote) then 1 + PlainRun(s[1..], quote) else 0
  }

  datatype Token = Token(item: string, rest: string)

  /** A quoted string literal at the start of `s` and what follows it. */
  function QuotedItem(s: string): (r: Option<Token>)
    ensures r.Some? ==> |r.value.rest| < |s|
  {
    if s == [] || (s[0] != '\'' && s[0] != '"') then None
    else
      var n := PlainRun(s[1..], s[0]);
      if n < |s| - 1 && s[1 + n] == s[0] then Some(Token(s[1..1 + n], s[2 + n..]))
      else None
  }

  /**
   * The items between the brackets: string literals separated by commas,
   * with an optional trailing comma. Anything else is refused, as `eval`
   * would raise or give something that is not a list of strings.
   */
  function ListItems(s: string): Option<seq<string>>
    decreases |s|, 1
  {
    ItemsAt(SkipBlanks(s))
  }

  /** `ListItems` once the leading blanks are skipped: `t` is empty or starts with a token. */
  function ItemsAt(t: string): Option<seq<string>>
    decreases |t|, 0
  {
    if t == [] then Some([])
    else
      match QuotedItem(t)
      case None => None
      case Some(tok) =>
        var u := SkipBlanks(tok.rest);
        if u == [] then Some([tok.item])
        else if u[0] != ',' then None
        else
          match ListItems(u[1..])
          case None => None
          case Some(more) => Some([tok.item] + more)
  }

  predicate Bracketed(s: string) {
    |s| >= 1 && s[0] == '[' && s[|s| - 1] == ']'
  }

  /** The list a bracketed labels string stands for. */
  function ParseListLiteral(s: string): Option<seq<string>>
    requires Bracketed(s)
  {
    if |s| < 2 then None else ListItems(s[1..|s| - 1])
  }

  /** A label a single-quoted literal can hold unescaped. */
  predicate Printable(x: string) {
    forall i :: 0 <= i < |x| ==> PlainChar(x[i], '\'')
  }

  function Quote(x: string): string {
    "'" + x + "'"
  }

  function RenderItems(xs: seq<string>): string {
    if xs == [] then ""
    else if |xs| == 1 then Quote(xs[0])
    else Quote(xs[0]) + ", " + RenderItems(xs[1..])
  }

  /** The list literal of some labels in single quotes, the form a list-valued cell takes in a CSV file. */
  function Render(xs: seq<string>): string {
    "[" + RenderItems(xs) + "]"
  }

  lemma QuoteToken(x: string, rest: string)
    requires Printable(x)
    ensures QuotedItem(Quote(x) + rest) == Some(Token(x, rest))
  {
    var s := Quote(x) + rest;
    assert s[1..] == x + ("'" + rest);
    PlainRunStops(x, "'" + rest);
    assert s[1 + |x|] == '\'';
    assert s[1..1 + |x|] == x;
    assert s[2 + |x|..] == rest;
  }

  lemma {:induction false} PlainRunStops(x: string, rest: string)
    requires Printable(x)
    requires rest != [] && rest[0] == '\''
    ensures PlainRun(x + rest, '\'') == |x|
  {
    if x != [] {
      assert (x + rest)[1..] == x[1..] + rest;
      PlainRunStops(x[1..], rest);
    }
  }

  lemma ListItemsBlank(rest: string)
    ensures ListItems(" " + rest) == ListItems(rest)
  {
    assert (" " + rest)[1..] == rest;
    assert SkipBlanks(" " + rest) == SkipBlanks(rest);
  }

  /** A list that starts with a quoted label: the label, then whatever follows it. */
  lemma ListItemsQuoted(x: string, rest: string)
    requires Printable(x)
    ensures ListItems(Quote(x) + rest) == ItemsAt(Quote(x) + rest)
    ensures ItemsAt(Quote(x) + rest) ==
      var u := SkipBlanks(rest);
      if u == [] then Some([x])
      else if u[0] != ',' then None
      else match ListItems(u[1..]) case None => None case Some(more) => Some([x] + more)
  {
    var s := Quote(x) + rest;
    assert s[0] == '\'' && !IsBlank(s[0]);
    assert SkipBlanks(s) == s;
    QuoteToken(x, rest);
  }

  lemma ListItemsCons(x: string, rest: string)
    requires Printable(x)
    ensures ListItems(Quote(x) + (", " + rest)) ==
      match ListItems(rest) case None => None case Some(more) => Some([x] + more)
  {
    var u := ", " + rest;
    assert u[0] == ',' && !IsBlank(u[0]);
    assert SkipBlanks(u) == u;
    assert u[1..] == " " + rest;
    ListItemsBlank(rest);
    assert ListItems(u[1..]) == ListItems(rest);
    ListItemsQuoted(x, u);
  }

  lemma ListItemsSingle(x: string)
    requires Printable(x)
    ensures ListItems(Quote(x)) == Some([x])
  {
    ListItemsQuoted(x, "");
    assert Quote(x) + "" == Quote(x);
    assert SkipBlanks("") == "";
  }

  lemma {:induction false} ListItemsRender(xs: seq<string>)
    requires forall i :: 0 <= i < |xs| ==> Printable(xs[i])
    ensures ListItems(RenderItems(xs)) == Some(xs)
  {
    if |xs| == 1 {
      ListItemsSingle(xs[0]);
      assert xs == [xs[0]];
    } else if |xs| > 1 {
      var rest := RenderItems(xs[1..]);
      assert RenderItems(xs) == Quote(xs[0]) + (", " + rest);
      ListItemsRender(xs[1..]);
      ListItemsCons(xs[0], rest);
      assert xs == [xs[0]] + xs[1..];
    }
  }

  /** Reading back a rendered list of labels gives the labels. */
  lemma ParseRender(xs: seq<string>)
    requires forall i :: 0 <= i < |xs| ==> Printable(xs[i])
    ensures Bracketed(Render(xs))
    ensures ParseListLiteral(Render(xs)) == Some(xs)
  {
    var s := Render(xs);
    assert s[1..|s| - 1] == RenderItems(xs);
    ListItemsRender(xs);
  }

  /**
   * The labels of one `labels` cell, or `None` when the row is skipped: a
   * missing or empty cell, a cell of another type, or a bracketed string
   * that is not a list of strings.
   */
  function CellLabels(c: Cell): Option<seq<string>> {
    match c
    case Missing => None
    case Number(_) => None
    case Items(xs) => Some(xs)
    case Text(s) =>
      if s == "" then None
      else if Bracketed(s) then ParseListLiteral(s)
      else Some(CommaLabels(s))
  }

  /** The category, stripped, is added when it is non-empty and not already a label. */
  function WithCategory(labels: seq<string>, category: Cell): (r: seq<string>)
    ensures r == labels || (category.Text? && r == labels + [Strip(category.text)])
  {
    match category
    case Text(c) =>
      var t := Strip(c);
      if t != "" && t !in labels then labels + [t] else labels
    case _ => labels
  }

  /** The label set a row contributes with, or `None` when the row is skipped. */
  function RowLabels(r: Row): Option<seq<string>> {
    match CellLabels(Get(r, "labels"))
    case None => None
    case Some(ls) => Some(WithCategory(ls, Get(r, "category")))
  }

  predicate NoDuplicates(xs: seq<string>) {
    forall i, j :: 0 <= i < j < |xs| ==> xs[i] != xs[j]
  }

  /**
   * Merging the category keeps every label, adds nothing but the stripped
   * category, adds it exactly when it is non-empty and new, and never
   * introduces a duplicate.
   */
  lemma WithCategorySpec(labels: seq<string>, c: string)
    ensures var r := WithCategory(labels, Text(c));
      && (forall x :: x in r <==> x in labels || (x == Strip(c) && x != ""))
      && (NoDuplicates(labels) ==> NoDuplicates(r))
      && r[..|labels|] == labels
  {
  }

  /** Only a text category is merged; any other cell leaves the labels alone. */
  lemma WithCategoryNonText(labels: seq<string>, category: Cell)
    requires !category.Text?
    ensures WithCategory(labels, category) == labels
  {
  }

  /** A comma-separated cell gives exactly its pieces when they carry no surrounding whitespace. */
  lemma CommaLabelsOfJoin(pieces: seq<string>)
    requires |pieces| >= 1
    requires forall i :: 0 <= i < |pieces| ==> ',' !in pieces[i] && Stripped(pieces[i])
    ensures CommaLabels(Join(pieces, ',')) == pieces
  {
    SplitJoin(pieces, ',');
    forall i | 0 <= i < |pieces| ensures Strip(pieces[i]) == pieces[i] {
      StripSpec(pieces[i]);
    }
  }

  /** The rendered form of a list of labels reads back as that list. */
  lemma CellLabelsOfRender(xs: seq<string>)
    requires forall i :: 0 <= i < |xs| ==> Printable(xs[i])
    ensures CellLabels(Text(Render(xs))) == Some(xs)
  {
    ParseRender(xs);
  }

  /** Missing and empty cells and cells of another type are skipped. */
  lemma SkippedCells(x: real)
    ensures CellLabels(Missing) == None
    ensures CellLabels(Text("")) == None && CellLabels(Number(x)) == None
  {
  }
}
