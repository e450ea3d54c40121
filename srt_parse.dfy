/**
 * Parsing an uploaded situational-response list into numbered items.
 *
 * The text is split on '\n'; every line is trimmed and blank lines are
 * skipped; a line matching `^(\d+)\.\s*(.+)$` opens a new item (closing the
 * open one), any other line is appended to the open item after one space, or
 * dropped when no item is open yet.
 *
 * `Items` states the result declaratively, one item per numbered line, each
 * carrying the text of the lines up to the next numbered line; `ParseSrt`
 * is the loop of the upload handler, proved to compute it.
 */
module SrtParse {
  import opened Wrappers
  import opened Text

  datatype SrtItem = SrtItem(number: nat, text: string)

  predicate NoLineTerminator(s: string) {
    forall i :: 0 <= i < |s| ==> !IsLineTerminator(s[i])
  }

  /**
   * `line.match(/^(\d+)\.\s*(.+)$/)`: the value of the leading digits and the
   * captured remainder. `\s*` is greedy, so the remainder starts after all the
   * white space that follows the dot, unless only white space follows it, in
   * which case backtracking leaves the last character to `(.+)`.
   */
  function MatchNumbered(line: string): (r: Option<(nat, string)>)
    ensures r.Some? ==> r.value.1 != [] && NoLineTerminator(r.value.1)
    ensures r.Some? ==> EndsWith(line, r.value.1) && |r.value.1| < |line|
    ensures r.Some? ==> |line| >= 2 && IsDigit(line[0])
  {
    var d := DigitRunLen(line);
    if d == 0 || d == |line| || line[d] != '.' then None
    else match TextAfterDot(line[d + 1..])
      case None => None
      case Some(t) => Some((DigitsValue(line[..d]), t))
  }

  /** What `\s*(.+)$` captures in `rest`, the part of the line after the dot. */
  function TextAfterDot(rest: string): (r: Option<string>)
    ensures r.Some? ==> r.value != [] && NoLineTerminator(r.value) && EndsWith(rest, r.value)
  {
    var body := TrimStart(rest);
    if body != [] then
      if NoLineTerminator(body) then Some(body) else None
    else if rest != [] && !IsLineTerminator(rest[|rest| - 1]) then
      Some(rest[|rest| - 1..])
    else None
  }

  /** What the loop does with one raw line. */
  datatype LineKind = Blank | Numbered(number: nat, text: string) | Continuation(text: string)

  function Classify(raw: string): LineKind {
    var line := Trim(raw);
    if line == [] then Blank
    else match MatchNumbered(line)
      case Some((n, t)) => Numbered(n, t)
      case None => Continuation(line)
  }

  /** What each raw line is, in order. */
  function Classified(lines: seq<string>): (ks: seq<LineKind>)
    ensures |ks| == |lines|
  {
    seq(|lines|, i requires 0 <= i < |lines| => Classify(lines[i]))
  }

  /** The text the lines `ks` add to an item opened just before them: " " + line for each continuation line, up to the next numbered line. */
  function Cont(ks: seq<LineKind>): string {
    if ks == [] then []
    else match ks[0]
      case Numbered(_, _) => []
      case Blank => Cont(ks[1..])
      case Continuation(t) => " " + t + Cont(ks[1..])
  }

  /** One item per numbered line, in order of appearance, its text followed by its continuation lines. */
  function Items(ks: seq<LineKind>): seq<SrtItem> {
    if ks == [] then []
    else match ks[0]
      case Numbered(n, t) => [SrtItem(n, t + Cont(ks[1..]))] + Items(ks[1..])
      case _ => Items(ks[1..])
  }

  /** The items still to come when `current` is the open item and `rest` the unread lines. */
  function Pending(current: Option<SrtItem>, rest: seq<LineKind>): seq<SrtItem> {
    match current
    case None => Items(rest)
    case Some(c) => [SrtItem(c.number, c.text + Cont(rest))] + Items(rest)
  }

  /**
   * What one line of kind `k` does to the open item: a numbered line closes
   * it and opens a new one; any other non-blank line is appended to it after
   * a space, or dropped when no item is open; a blank line does nothing.
   * The result is the items closed and the item left open.
   */
  function Consume(current: Option<SrtItem>, k: LineKind): (seq<SrtItem>, Option<SrtItem>) {
    match k
    case Blank => ([], current)
    case Numbered(n, t) => (if current.Some? then [current.value] else [], Some(SrtItem(n, t)))
    case Continuation(t) =>
      ([], if current.Some? then Some(SrtItem(current.value.number, current.value.text + " " + t)) else None)
  }

  /** Consuming one line leaves still to come exactly what was to come from that line on. */
  lemma PendingStep(current: Option<SrtItem>, k: LineKind, after: seq<LineKind>)
    ensures Consume(current, k).0 + Pending(Consume(current, k).1, after) == Pending(current, [k] + after)
  {
    var ks := [k] + after;
    assert ks[0] == k && ks[1..] == after;
    if current.Some? {
      var c := current.value;
      if k.Continuation? {
        assert c.text + Cont(ks) == (c.text + " " + k.text) + Cont(after);
      } else if k.Numbered? {
        assert c.text + Cont(ks) == c.text;
      }
    }
  }

  /** The body of the parse loop for one raw line: the items it closes and the item left open. */
  method ParseLine(raw: string, current: Option<SrtItem>) returns (closed: seq<SrtItem>, open: Option<SrtItem>)
    ensures (closed, open) == Consume(current, Classify(raw))
  {
    closed, open := [], current;
    var line := Trim(raw);
    if line != [] {
      match MatchNumbered(line) {
        case Some((n, t)) =>
          if current.Some? {
            closed := [current.value];
          }
          open := Some(SrtItem(n, t));
        case None =>
          if current.Some? {
            open := Some(SrtItem(current.value.number, current.value.text + " " + line));
          }
      }
    }
  }

  lemma SuffixAt<T>(s: seq<T>, i: nat)
    requires i < |s|
    ensures s[i..] == [s[i]] + s[i + 1..]
  {
  }

  /** The parse loop of the upload handler. */
  method ParseSrt(content: string) returns (items: seq<SrtItem>)
    ensures items == Items(Classified(Split(content, '\n')))
  {
    var lines := Split(content, '\n');
    items := ParseLines(lines);
  }

  /** The loop over the lines, each line handled by `ParseLine`, then the last open item closed. */
  method ParseLines(lines: seq<string>) returns (items: seq<SrtItem>)
    ensures items == Items(Classified(lines))
  {
    ghost var kinds := Classified(lines);
    items := [];
    var current: Option<SrtItem> := None;
    var i := 0;
    while i < |lines|
      invariant 0 <= i <= |lines|
      invariant Items(kinds) == items + Pending(current, kinds[i..])
    {
      SuffixAt(kinds, i);
      ghost var after := kinds[i + 1..];
      var closed, open := ParseLine(lines[i], current);
      PendingStep(current, kinds[i], after);
      AppendAssoc(items, closed, Pending(open, after));
      items, current := items + closed, open;
      i := i + 1;
    }
    assert kinds[i..] == [];
    PendingAtEnd(current);
    if current.Some? {
      items := items + [current.value];
    }
  }

  /** At the end of the input the open item, if any, is the last one. */
  lemma PendingAtEnd(current: Option<SrtItem>)
    ensures Pending(current, []) == if current.Some? then [current.value] else []
  {
    assert current.Some? ==> current.value.text + Cont([]) == current.value.text;
  }

  /** The (number, text) of each numbered line, in order. */
  function NumberedLines(ks: seq<LineKind>): seq<(nat, string)> {
    if ks == [] then []
    else match ks[0]
      case Numbered(n, t) => [(n, t)] + NumberedLines(ks[1..])
      case _ => NumberedLines(ks[1..])
  }

  /**
   * There is exactly one item per numbered line, in the same order; its number
   * is the line's number (never sorted or renumbered) and its text starts with
   * the line's text.
   */
  lemma {:induction false} ItemsFollowNumberedLines(ks: seq<LineKind>)
    ensures |Items(ks)| == |NumberedLines(ks)|
    ensures forall k :: 0 <= k < |Items(ks)| ==>
      Items(ks)[k].number == NumberedLines(ks)[k].0 && StartsWith(Items(ks)[k].text, NumberedLines(ks)[k].1)
  {
    if ks != [] {
      ItemsFollowNumberedLines(ks[1..]);
      match ks[0]
      case Numbered(n, t) =>
        var it := Items(ks);
        assert it == [SrtItem(n, t + Cont(ks[1..]))] + Items(ks[1..]);
        assert NumberedLines(ks) == [(n, t)] + NumberedLines(ks[1..]);
        assert StartsWith(it[0].text, t);
      case Blank =>
      case Continuation(_) =>
    }
  }

  /** Inserting a blank line anywhere neither opens nor closes an item. */
  lemma {:induction false} BlankLineIsIgnored(a: seq<LineKind>, c: seq<LineKind>)
    ensures Items(a + [Blank] + c) == Items(a + c)
    ensures Cont(a + [Blank] + c) == Cont(a + c)
    decreases |a|
  {
    if a == [] {
      assert (a + [Blank] + c)[1..] == c;
      assert a + c == c;
    } else {
      assert (a + [Blank] + c)[0] == a[0] && (a + [Blank] + c)[1..] == a[1..] + [Blank] + c;
      assert (a + c)[0] == a[0] && (a + c)[1..] == a[1..] + c;
      BlankLineIsIgnored(a[1..], c);
    }
  }

  /** Lines before the first numbered line are dropped. */
  lemma {:induction false} LeadingLinesAreDropped(a: seq<LineKind>, b: seq<LineKind>)
    requires forall i :: 0 <= i < |a| ==> !a[i].Numbered?
    ensures Items(a + b) == Items(b)
    decreases |a|
  {
    if a != [] {
      assert (a + b)[0] == a[0] && (a + b)[1..] == a[1..] + b;
      LeadingLinesAreDropped(a[1..], b);
    } else {
      assert a + b == b;
    }
  }

  /** A text with no line break and no white space at either end: what one item line can carry. */
  predicate CleanText(t: string) {
    t != [] && Trimmed(t) && NoLineTerminator(t)
  }

  /** The line `n. text`. */
  function ItemLine(item: SrtItem): string {
    NatToString(item.number) + ". " + item.text
  }

  function ItemLines(items: seq<SrtItem>): (ls: seq<string>)
    ensures |ls| == |items|
  {
    seq(|items|, k requires 0 <= k < |items| => ItemLine(items[k]))
  }

  /** The list text `1. first\n2. second\n...` for the given items. */
  function RenderSrt(items: seq<SrtItem>): string {
    Join(ItemLines(items), '\n')
  }

  lemma MatchItemLine(item: SrtItem)
    requires CleanText(item.text)
    ensures MatchNumbered(ItemLine(item)) == Some((item.number, item.text))
  {
    var ds := NatToString(item.number);
    assert ItemLine(item) == ds + "." + " " + item.text;
    MatchNumberedOfForm(ItemLine(item), ds, " ", item.text);
  }

  predicate AllSpace(ws: string) {
    forall i :: 0 <= i < |ws| ==> IsSpace(ws[i])
  }

  /** `line` is digits `ds`, a dot, white space `ws` and a non-empty single-line text `t`: a split the pattern admits. */
  predicate NumberedForm(line: string, ds: string, ws: string, t: string) {
    && ds != [] && AllDigits(ds) && AllSpace(ws) && t != [] && NoLineTerminator(t)
    && line == ds + "." + ws + t
  }

  /** The split the greedy `\s*` picks: `t` cannot give up its first character to the white space. */
  predicate GreedyText(t: string) {
    |t| == 1 || (t != [] && !IsSpace(t[0]))
  }

  /** White space then a single-line text is captured; with the greedy split, exactly that text. */
  lemma TextAfterDotOfForm(ws: string, t: string)
    requires AllSpace(ws) && t != [] && NoLineTerminator(t)
    ensures TextAfterDot(ws + t).Some?
    ensures GreedyText(t) ==> TextAfterDot(ws + t) == Some(t)
  {
    TrimStartAfterSpace(ws, t);
    var body := TrimStart(t);
    if body != [] {
      SuffixKeepsLine(t, |t| - |body|);
      CaptureNonBlank(ws + t, body);
      if GreedyText(t) {
        GreedyNonBlank(t);
      }
    } else {
      EndOfJoin(ws, t);
      CaptureBlank(ws + t);
      if GreedyText(t) {
        GreedyBlank(t);
        assert (ws + t)[|ws + t| - 1..] == t;
      }
    }
  }

  /** When white space is followed by more text, that text without its white space is captured. */
  lemma CaptureNonBlank(rest: string, body: string)
    requires TrimStart(rest) == body && body != [] && NoLineTerminator(body)
    ensures TextAfterDot(rest) == Some(body)
  {
  }

  /** When only white space follows the dot, its last character is captured unless it ends a line. */
  lemma CaptureBlank(rest: string)
    requires TrimStart(rest) == [] && rest != [] && !IsLineTerminator(rest[|rest| - 1])
    ensures TextAfterDot(rest) == Some(rest[|rest| - 1..])
  {
  }

  lemma GreedyNonBlank(t: string)
    requires GreedyText(t) && TrimStart(t) != []
    ensures TrimStart(t) == t
  {
  }

  lemma GreedyBlank(t: string)
    requires GreedyText(t) && TrimStart(t) == []
    ensures |t| == 1
  {
    assert IsSpace(t[0]);
  }

  lemma EndOfJoin(ws: string, t: string)
    requires t != []
    ensures ws + t != [] && (ws + t)[|ws + t| - 1] == t[|t| - 1]
  {
  }

  lemma SuffixKeepsLine(t: string, k: nat)
    requires k <= |t| && NoLineTerminator(t)
    ensures NoLineTerminator(t[k..])
  {
    forall i | 0 <= i < |t| - k ensures !IsLineTerminator(t[k..][i]) {
      assert t[k..][i] == t[k + i];
    }
  }

  /** White space in front changes nothing for `trimStart`. */
  lemma {:induction false} TrimStartAfterSpace(ws: string, t: string)
    requires AllSpace(ws)
    ensures TrimStart(ws + t) == TrimStart(t)
    decreases |ws|
  {
    if ws == [] {
      assert ws + t == t;
    } else {
      assert (ws + t)[1..] == ws[1..] + t;
      TrimStartAfterSpace(ws[1..], t);
    }
  }

  /** A captured text is what follows some white space, split greedily. */
  lemma TextAfterDotFound(rest: string)
    requires TextAfterDot(rest).Some?
    ensures var t := TextAfterDot(rest).value;
      |t| <= |rest| && AllSpace(rest[..|rest| - |t|]) && rest == rest[..|rest| - |t|] + t && GreedyText(t)
  {
    var t := TextAfterDot(rest).value;
    var k := |rest| - |t|;
    assert rest == rest[..k] + rest[k..];
    if TrimStart(rest) != [] {
      assert t == TrimStart(rest);
    } else {
      assert t == rest[|rest| - 1..];
    }
    LeadingSpace(rest, k);
  }

  lemma LeadingSpace(s: string, k: nat)
    requires k <= |s| && forall i :: 0 <= i < k ==> IsSpace(s[i])
    ensures AllSpace(s[..k])
  {
    forall i | 0 <= i < k ensures IsSpace(s[..k][i]) {
      assert s[..k][i] == s[i];
    }
  }

  /**
   * Every line of the numbered form matches; with the greedy split the match
   * is the value of the digits and that text.
   */
  lemma MatchNumberedOfForm(line: string, ds: string, ws: string, t: string)
    requires NumberedForm(line, ds, ws, t)
    ensures MatchNumbered(line).Some?
    ensures GreedyText(t) ==> MatchNumbered(line) == Some((DigitsValue(ds), t))
  {
    AppendAssoc(ds + ".", ws, t);
    DotSplit(ds, ws + t);
    TextAfterDotOfForm(ws, t);
    MatchOfParts(line, |ds|);
  }

  /** Where the digits end in `ds + "." + rest`, and what lies on either side of the dot. */
  lemma DotSplit(ds: string, rest: string)
    requires ds != [] && AllDigits(ds)
    ensures var line := ds + "." + rest;
      DigitRunLen(line) == |ds| < |line| && line[|ds|] == '.' && line[..|ds|] == ds && line[|ds| + 1..] == rest
  {
    var line := ds + "." + rest;
    assert line == ds + ("." + rest);
    DigitRunLenOf(ds, "." + rest);
  }

  /** Digits, a dot and a capture after it make a match of the digits' value and the capture. */
  lemma MatchOfParts(line: string, d: nat)
    requires d == DigitRunLen(line) && 0 < d < |line| && line[d] == '.'
    ensures MatchNumbered(line).Some? <==> TextAfterDot(line[d + 1..]).Some?
    ensures TextAfterDot(line[d + 1..]).Some? ==>
      MatchNumbered(line) == Some((DigitsValue(line[..d]), TextAfterDot(line[d + 1..]).value))
  {
  }

  /**
   * Every match comes from a line of the numbered form, split greedily: the
   * number is the value of the leading digits and the text what follows the
   * white space after the dot.
   */
  lemma MatchNumberedFound(line: string)
    requires MatchNumbered(line).Some?
    ensures var (n, t) := MatchNumbered(line).value;
      var d := DigitRunLen(line);
      && 0 < d && d + 1 + |t| <= |line|
      && NumberedForm(line, line[..d], line[d + 1..|line| - |t|], t)
      && GreedyText(t) && n == DigitsValue(line[..d])
  {
    MatchNumberedParts(line);
    var d := DigitRunLen(line);
    var rest := line[d + 1..];
    TextAfterDotFound(rest);
    FormOfParts(line, d, TextAfterDot(rest).value);
  }

  /** A match has the digits before the dot as its number and what `TextAfterDot` captures as its text. */
  lemma MatchNumberedParts(line: string)
    requires MatchNumbered(line).Some?
    ensures var d := DigitRunLen(line);
      && 0 < d < |line| && line[d] == '.' && TextAfterDot(line[d + 1..]).Some?
      && MatchNumbered(line).value == (DigitsValue(line[..d]), TextAfterDot(line[d + 1..]).value)
  {
  }

  /** Digits up to `d`, a dot, then white space and `t` to the end: the numbered form. */
  lemma FormOfParts(line: string, d: nat, t: string)
    requires 0 < d < |line| && AllDigits(line[..d]) && line[d] == '.'
    requires t != [] && NoLineTerminator(t)
    requires var rest := line[d + 1..];
      |t| <= |rest| && AllSpace(rest[..|rest| - |t|]) && rest == rest[..|rest| - |t|] + t
    ensures d + 1 + |t| <= |line| && NumberedForm(line, line[..d], line[d + 1..|line| - |t|], t)
  {
    var rest := line[d + 1..];
    var ws := rest[..|rest| - |t|];
    assert ws == line[d + 1..|line| - |t|];
    assert line == line[..d] + [line[d]] + rest;
  }

  /** A clean item line classifies as the item's number and text. */
  lemma ClassifyItemLine(item: SrtItem)
    requires CleanText(item.text)
    ensures Classify(ItemLine(item)) == Numbered(item.number, item.text)
  {
    var ds := NatToString(item.number);
    var line := ItemLine(item);
    assert line == ds + (". " + item.text);
    assert line[0] == ds[0] && IsDigit(ds[0]);
    assert line[|line| - 1] == item.text[|item.text| - 1];
    assert Trimmed(line);
    TrimOfTrimmed(line);
    MatchItemLine(item);
  }

  /** The kinds of the lines `ItemLines(items)` when every text is clean. */
  function ItemKinds(items: seq<SrtItem>): (ks: seq<LineKind>)
    ensures |ks| == |items|
  {
    seq(|items|, k requires 0 <= k < |items| => Numbered(items[k].number, items[k].text))
  }

  lemma ClassifiedItemLines(items: seq<SrtItem>)
    requires forall k :: 0 <= k < |items| ==> CleanText(items[k].text)
    ensures Classified(ItemLines(items)) == ItemKinds(items)
  {
    forall k | 0 <= k < |items|
      ensures Classified(ItemLines(items))[k] == ItemKinds(items)[k]
    {
      ClassifyItemLine(items[k]);
    }
  }

  lemma {:induction false} ItemsOfItemKinds(items: seq<SrtItem>)
    ensures Items(ItemKinds(items)) == items
    ensures items != [] ==> Cont(ItemKinds(items)) == []
  {
    if items != [] {
      var ks := ItemKinds(items);
      assert ks[1..] == ItemKinds(items[1..]);
      ItemsOfItemKinds(items[1..]);
      assert items[0].text + Cont(ks[1..]) == items[0].text;
      assert items == [items[0]] + items[1..];
    }
  }

  /** Parsing the rendered list gives back the items: the parser and the list format are inverse. */
  lemma ParseRenderRoundTrip(items: seq<SrtItem>)
    requires forall k :: 0 <= k < |items| ==> CleanText(items[k].text)
    ensures Items(Classified(Split(RenderSrt(items), '\n'))) == items
  {
    var ls := ItemLines(items);
    if items == [] {
      assert Split(RenderSrt(items), '\n') == [[]];
      assert Classify([]) == Blank;
    } else {
      forall k | 0 <= k < |ls| ensures '\n' !in ls[k] {
        ItemLinesHaveNoBreak(items, k);
      }
      SplitJoin(ls, '\n');
      ClassifiedItemLines(items);
      ItemsOfItemKinds(items);
    }
  }

  lemma ItemLinesHaveNoBreak(items: seq<SrtItem>, k: nat)
    requires forall j :: 0 <= j < |items| ==> CleanText(items[j].text)
    requires k < |items|
    ensures '\n' !in ItemLines(items)[k]
  {
    var line := ItemLine(items[k]);
    var ds := NatToString(items[k].number);
    assert line == ds + ". " + items[k].text;
    assert forall i :: 0 <= i < |ds| ==> IsDigit(ds[i]);
    assert forall i :: 0 <= i < |items[k].text| ==> !IsLineTerminator(items[k].text[i]);
  }
}
