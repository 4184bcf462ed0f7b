/**
 * The ingredient text area of the recipe form in app/main.py: one
 * ingredient per line, written `quantité:nom`. The whole text is stripped
 * and split on line feeds; a line without ':' is skipped, any other line is
 * split at its first ':' into a quantity (before) and a name (after), both
 * stripped.
 */
module IngredientForm {
  import opened Text
  import opened Models

  const LineSeparator: char := '\n'
  const FieldSeparator: char := ':'

  /** One line: `None` when it holds no ':', otherwise the stripped halves around its first ':'. */
  function ParseLine(line: string): (r: Option<IngredientCreate>)
    ensures r.None? <==> FieldSeparator !in line
  {
    match Find(line, FieldSeparator)
    case None => None
    case Some(i) => Some(IngredientCreate(Strip(line[i + 1..]), Strip(line[..i])))
  }

  /** What one line adds to the list: its ingredient, or nothing. */
  function Entry(line: string): (r: seq<IngredientCreate>)
    ensures |r| <= 1
  {
    match ParseLine(line)
    case None => []
    case Some(e) => [e]
  }

  /** `f` applied to each element of `s`, the results concatenated in order. */
  function FlatMap<A, B>(f: A -> seq<B>, s: seq<A>): seq<B> {
    if s == [] then [] else FlatMap(f, s[..|s| - 1]) + f(s[|s| - 1])
  }

  lemma {:induction false} FlatMapAppend<A, B>(f: A -> seq<B>, a: seq<A>, b: seq<A>)
    ensures FlatMap(f, a + b) == FlatMap(f, a) + FlatMap(f, b)
    decreases |b|
  {
    if b == [] {
      assert a + b == a;
    } else {
      FlatMapAppend(f, a, b[..|b| - 1]);
      assert (a + b)[..|a + b| - 1] == a + b[..|b| - 1];
    }
  }

  /** When `f` maps each element of `s` to the one-element list of the matching element of `t`, flattening gives `t`. */
  lemma {:induction false} FlatMapOfSingletons<A, B>(f: A -> seq<B>, s: seq<A>, t: seq<B>)
    requires |s| == |t|
    requires forall k :: 0 <= k < |s| ==> f(s[k]) == [t[k]]
    ensures FlatMap(f, s) == t
  {
    if s != [] {
      FlatMapOfSingletons(f, s[..|s| - 1], t[..|t| - 1]);
      assert t == t[..|t| - 1] + [t[|t| - 1]];
    }
  }

  /** The ingredients read from `lines`, in line order. */
  function ParsedLines(lines: seq<string>): seq<IngredientCreate> {
    FlatMap(Entry, lines)
  }

  lemma ParsedLinesStep(lines: seq<string>, line: string)
    ensures ParsedLines(lines + [line]) == ParsedLines(lines) + Entry(line)
  {
    assert (lines + [line])[..|lines|] == lines;
  }

  /** The `ingredients_list` the form handler builds from `ingredients_raw`. */
  method ParseIngredients(raw: string) returns (list: seq<IngredientCreate>)
    ensures list == ParsedLines(Split(Strip(raw), LineSeparator))
  {
    var lines := Split(Strip(raw), LineSeparator);
    list := [];
    for k := 0 to |lines|
      invariant list == ParsedLines(lines[..k])
    {
      var line := lines[k];
      TakeOneMore(lines, k);
      ParsedLinesStep(lines[..k], line);
      if FieldSeparator in line {
        // line.split(':', 1)
        var i := Find(line, FieldSeparator).value;
        var q, n := line[..i], line[i + 1..];
        list := list + [IngredientCreate(Strip(n), Strip(q))];
      }
    }
    TakeAll(lines);
  }

  // ---------------------------------------------------------------------
  // Properties of the parser

  /** A line is cut at its first ':' and nowhere else. */
  lemma ParseLineAtFirstColon(line: string, i: int)
    requires 0 <= i < |line| && line[i] == FieldSeparator && FieldSeparator !in line[..i]
    ensures ParseLine(line) == Some(IngredientCreate(Strip(line[i + 1..]), Strip(line[..i])))
  {
    var j := Find(line, FieldSeparator).value;
  }

  /** The parse of consecutive texts is the concatenation of their parses: line order is kept. */
  lemma ParsedLinesAppend(a: seq<string>, b: seq<string>)
    ensures ParsedLines(a + b) == ParsedLines(a) + ParsedLines(b)
  {
    FlatMapAppend(Entry, a, b);
  }

  /** At most one ingredient per line. */
  lemma {:induction false} ParsedLinesLength(lines: seq<string>)
    ensures |ParsedLines(lines)| <= |lines|
  {
    if lines != [] {
      var prefix := lines[..|lines| - 1];
      ParsedLinesLength(prefix);
      assert lines == prefix + [lines[|lines| - 1]];
      ParsedLinesStep(prefix, lines[|lines| - 1]);
    }
  }

  /** Lines without ':' contribute nothing. */
  lemma {:induction false} ParsedLinesSkipsColonFree(lines: seq<string>)
    requires forall l :: l in lines ==> FieldSeparator !in l
    ensures ParsedLines(lines) == []
  {
    if lines != [] {
      var prefix := lines[..|lines| - 1];
      assert forall l :: l in prefix ==> l in lines;
      ParsedLinesSkipsColonFree(prefix);
      assert lines == prefix + [lines[|lines| - 1]];
      ParsedLinesStep(prefix, lines[|lines| - 1]);
    }
  }

  /** Every parsed quantity is free of ':', and both fields come out stripped. */
  lemma {:induction false} ParsedFields(lines: seq<string>)
    ensures forall e :: e in ParsedLines(lines) ==>
      FieldSeparator !in e.quantity && Stripped(e.quantity) && Stripped(e.name)
  {
    if lines != [] {
      var prefix, line := lines[..|lines| - 1], lines[|lines| - 1];
      ParsedFields(prefix);
      assert lines == prefix + [line];
      ParsedLinesStep(prefix, line);
      match Find(line, FieldSeparator)
      case None =>
      case Some(i) =>
        StripKeepsOut(line[..i], FieldSeparator);
    }
  }

  // ---------------------------------------------------------------------
  // Writing ingredients back as text

  /** The line `quantité:nom` that stands for `e`. */
  function FormatLine(e: IngredientCreate): string {
    e.quantity + [FieldSeparator] + e.name
  }

  /** The lines standing for `items`, in order. */
  function FormattedLines(items: seq<IngredientCreate>): (lines: seq<string>)
    ensures |lines| == |items|
  {
    seq(|items|, k requires 0 <= k < |items| => FormatLine(items[k]))
  }

  /** The text area holding `items`, one line each. */
  function FormatIngredients(items: seq<IngredientCreate>): string {
    Join(FormattedLines(items), [LineSeparator])
  }

  /** An ingredient the text area can carry unchanged. */
  predicate Writable(e: IngredientCreate) {
    && Stripped(e.quantity) && Stripped(e.name)
    && FieldSeparator !in e.quantity
    && LineSeparator !in e.quantity && LineSeparator !in e.name
  }

  lemma ParseFormatLine(e: IngredientCreate)
    requires Writable(e)
    ensures ParseLine(FormatLine(e)) == Some(e)
  {
    var line := FormatLine(e);
    var i := |e.quantity|;
    assert line[..i] == e.quantity && line[i + 1..] == e.name;
    ParseLineAtFirstColon(line, i);
    StripStripped(e.quantity);
    StripStripped(e.name);
  }

  lemma ParseFormattedLines(items: seq<IngredientCreate>)
    requires forall e :: e in items ==> Writable(e)
    ensures ParsedLines(FormattedLines(items)) == items
  {
    var lines := FormattedLines(items);
    forall k | 0 <= k < |lines| ensures Entry(lines[k]) == [items[k]] {
      ParseFormatLine(items[k]);
    }
    FlatMapOfSingletons(Entry, lines, items);
  }

  /** No line written for a writable ingredient holds a line break. */
  lemma FormattedLinesUnbroken(items: seq<IngredientCreate>)
    requires forall e :: e in items ==> Writable(e)
    ensures forall l :: l in FormattedLines(items) ==> LineSeparator !in l
  {
    var lines := FormattedLines(items);
    forall k | 0 <= k < |lines| ensures LineSeparator !in lines[k] {
      assert items[k] in items;
      assert lines[k] == items[k].quantity + [FieldSeparator] + items[k].name;
    }
  }

  /** The text written for writable ingredients has no surrounding blanks. */
  lemma FormattedStripped(items: seq<IngredientCreate>)
    requires items != []
    requires forall e :: e in items ==> Writable(e)
    ensures Strip(FormatIngredients(items)) == FormatIngredients(items)
  {
    var lines := FormattedLines(items);
    var text := FormatIngredients(items);
    var first, last := lines[0], lines[|lines| - 1];
    assert items[0] in items && items[|items| - 1] in items;
    assert first[0] == (if items[0].quantity == [] then FieldSeparator else items[0].quantity[0]);
    assert last[|last| - 1] == (if items[|items| - 1].name == [] then FieldSeparator
                                else items[|items| - 1].name[|items[|items| - 1].name| - 1]);
    JoinStartsWithFirst(lines, [LineSeparator]);
    JoinEndsWithLast(lines, [LineSeparator]);
    assert text[0] == first[0];
    assert text[|text| - 1] == last[|last| - 1];
    StripStripped(text);
  }

  /** Writing ingredients as text and parsing that text gives the same ingredients back. */
  lemma ParseFormatIngredients(items: seq<IngredientCreate>)
    requires forall e :: e in items ==> Writable(e)
    ensures ParsedLines(Split(Strip(FormatIngredients(items)), LineSeparator)) == items
  {
    var text := FormatIngredients(items);
    if items == [] {
      StripStripped(text);
      assert Split(text, LineSeparator) == [text];
      var none: seq<string> := [];
      ParsedLinesStep(none, text);
      assert none + [text] == [text];
    } else {
      FormattedStripped(items);
      FormattedLinesUnbroken(items);
      SplitJoin(FormattedLines(items), LineSeparator);
      ParseFormattedLines(items);
    }
  }
}
