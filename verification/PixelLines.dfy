/**
 The grouping of recognised words into rendered lines, `pixel_lines` of
 scripts/mobile_android_ui.py.
 */
module PixelLines {
  import opened Common
  import opened Sorting

  datatype Word = Word(x: int, y: int, width: int, height: int, text: string)

  /** A row of the recogniser's table; `blank` when its text is white space only. */
  datatype Row = Row(level: string, blank: bool, word: Word)

  datatype Rectangle = Rectangle(left: int, top: int, right: int, bottom: int)

  datatype Line = Line(text: string, top: int, bottom: int)

  predicate Inside(w: Word, r: Rectangle) {
    && w.width > 0 && w.height > 0
    && r.left <= w.x && r.top <= w.y && w.x + w.width <= r.right && w.y + w.height <= r.bottom
  }

  /** Some pixel belongs to both; the rectangle has pixels of its own. */
  predicate Touches(w: Word, r: Rectangle) {
    w.x < r.right && w.x + w.width > r.left && w.y < r.bottom && w.y + w.height > r.top
  }

  predicate Counts(row: Row, bounds: Rectangle, excluded: seq<Rectangle>) {
    && row.level == "5" && !row.blank && Inside(row.word, bounds)
    && forall i | 0 <= i < |excluded| :: !Touches(row.word, excluded[i])
  }

  function Counting(bounds: Rectangle, excluded: seq<Rectangle>): Row -> bool { row => Counts(row, bounds, excluded) }

  /** What the elements with the property map to, in order. */
  function Chosen<A, B>(s: seq<A>, p: A -> bool, f: A -> B): seq<B> {
    if s == [] then []
    else Chosen(s[..|s| - 1], p, f) + (if p(s[|s| - 1]) then [f(s[|s| - 1])] else [])
  }

  /** The words that the rows contribute, in order. */
  function Visible(rows: seq<Row>, bounds: Rectangle, excluded: seq<Rectangle>): seq<Word> {
    Chosen(rows, Counting(bounds, excluded), (row: Row) => row.word)
  }

  /** Where a value comes from. */
  function Sources<A, B(==)>(s: seq<A>, p: A -> bool, f: A -> B, b: B): set<nat> {
    set i: nat | i < |s| && p(s[i]) && f(s[i]) == b
  }

  lemma SourcesStep<A, B>(s: seq<A>, p: A -> bool, f: A -> B, b: B)
    requires s != []
    ensures Sources(s, p, f, b)
      == Sources(s[..|s| - 1], p, f, b) + if p(s[|s| - 1]) && f(s[|s| - 1]) == b then {|s| - 1} else {}
  {
  }

  lemma ChosenStep<A, B>(s: seq<A>, p: A -> bool, f: A -> B, b: B)
    requires s != []
    ensures multiset(Chosen(s, p, f))[b]
      == multiset(Chosen(s[..|s| - 1], p, f))[b] + if p(s[|s| - 1]) && f(s[|s| - 1]) == b then 1 else 0
  {
  }

  /** It occurs once for each source. */
  lemma {:induction false} ChosenOccurs<A, B>(s: seq<A>, p: A -> bool, f: A -> B, b: B)
    ensures multiset(Chosen(s, p, f))[b] == |Sources(s, p, f, b)|
  {
    if s != [] {
      ChosenOccurs(s[..|s| - 1], p, f, b);
      ChosenStep(s, p, f, b);
      SourcesStep(s, p, f, b);
    }
  }

  function Min(a: int, b: int): int { if a < b then a else b }
  function Max(a: int, b: int): int { if a > b then a else b }

  function Top(line: seq<Word>): (t: int)
    requires line != []
    ensures (forall i | 0 <= i < |line| :: t <= line[i].y) && exists i | 0 <= i < |line| :: t == line[i].y
  {
    if |line| == 1 then line[0].y else Min(Top(line[..|line| - 1]), line[|line| - 1].y)
  }

  function Bottom(line: seq<Word>): (b: int)
    requires line != []
    ensures (forall i | 0 <= i < |line| :: line[i].y + line[i].height <= b)
      && exists i | 0 <= i < |line| :: b == line[i].y + line[i].height
  {
    if |line| == 1 then line[0].y + line[0].height
    else Max(Bottom(line[..|line| - 1]), line[|line| - 1].y + line[|line| - 1].height)
  }

  /** The word shares at least six tenths of the lower of the two heights with the line. */
  predicate Overlaps(line: seq<Word>, w: Word)
    requires line != []
  {
    var overlap := Min(Bottom(line), w.y + w.height) - Max(Top(line), w.y);
    10 * overlap >= 6 * Min(w.height, Bottom(line) - Top(line))
  }

  /** Twice the distance between the centres. */
  function Distance(line: seq<Word>, w: Word): int
    requires line != []
  {
    var d := Top(line) + Bottom(line) - (2 * w.y + w.height);
    if d < 0 then -d else d
  }

  /** Every word but the first overlapped what the line was when it came. */
  ghost predicate Grown(line: seq<Word>) {
    line != [] && forall k | 0 < k < |line| :: Overlaps(line[..k], line[k])
  }

  function Flat(lines: seq<seq<Word>>): multiset<Word> {
    if lines == [] then multiset{} else Flat(lines[..|lines| - 1]) + multiset(lines[|lines| - 1])
  }

  lemma {:induction false} FlatUpdate(lines: seq<seq<Word>>, i: nat, w: Word)
    requires i < |lines|
    ensures Flat(lines[i := lines[i] + [w]]) == Flat(lines) + multiset{w}
  {
    var more := lines[i := lines[i] + [w]];
    var n := |lines| - 1;
    if i == n {
      assert more[..n] == lines[..n];
    } else {
      FlatUpdate(lines[..n], i, w);
      assert more[..n] == lines[..n][i := lines[..n][i] + [w]];
    }
  }

  lemma FlatMore(lines: seq<seq<Word>>, w: Word)
    ensures Flat(lines + [[w]]) == Flat(lines) + multiset{w}
  {
    assert (lines + [[w]])[..|lines|] == lines;
  }

  /** Lines of at least one word. */
  type Lines = s: seq<seq<Word>> | forall i | 0 <= i < |s| :: s[i] != []

  /** What each line offers a word: the distance, where the word overlaps it. */
  function Offers(lines: Lines, w: Word): seq<Option<int>> {
    seq(|lines|, i requires 0 <= i < |lines| => if Overlaps(lines[i], w) then Some(Distance(lines[i], w)) else None)
  }

  predicate Better(offers: seq<Option<int>>, index: nat, choice: Option<nat>)
    requires index < |offers| && (choice.Some? ==> choice.value < |offers| && offers[choice.value].Some?)
  {
    offers[index].Some? && (choice.None? || offers[index].value < offers[choice.value].value)
  }

  /** The first of the smallest offers. */
  function Smallest(offers: seq<Option<int>>, n: nat): (choice: Option<nat>)
    requires n <= |offers|
    ensures choice.Some? ==> choice.value < n && offers[choice.value].Some?
    ensures choice.None? <==> forall i | 0 <= i < n :: offers[i].None?
    ensures choice.Some? ==> forall i | 0 <= i < n && offers[i].Some? ::
      || offers[choice.value].value < offers[i].value
      || (offers[choice.value].value == offers[i].value && choice.value <= i)
  {
    if n == 0 then None
    else
      var before := Smallest(offers, n - 1);
      if Better(offers, n - 1, before) then Some(n - 1) else before
  }

  /** The lines after one more word. */
  function Placed(lines: Lines, w: Word): Lines {
    var choice := Smallest(Offers(lines, w), |lines|);
    if choice.Some? then lines[choice.value := lines[choice.value] + [w]] else lines + [[w]]
  }

  function Grouped(words: seq<Word>): Lines {
    if words == [] then [] else Placed(Grouped(words[..|words| - 1]), words[|words| - 1])
  }

  lemma PlacedKeeps(lines: Lines, w: Word)
    requires forall i | 0 <= i < |lines| :: Grown(lines[i])
    ensures Flat(Placed(lines, w)) == Flat(lines) + multiset{w}
    ensures forall i | 0 <= i < |Placed(lines, w)| :: Grown(Placed(lines, w)[i])
  {
    var choice := Smallest(Offers(lines, w), |lines|);
    if choice.Some? {
      FlatUpdate(lines, choice.value, w);
      GrownMore(lines[choice.value], w);
    } else {
      FlatMore(lines, w);
    }
  }

  /** Nothing is lost, invented or shared, and each line has grown by overlap. */
  lemma {:induction false} GroupedKeeps(words: seq<Word>)
    ensures Flat(Grouped(words)) == multiset(words)
    ensures forall i | 0 <= i < |Grouped(words)| :: Grown(Grouped(words)[i])
  {
    if words != [] {
      var front, last := words[..|words| - 1], words[|words| - 1];
      GroupedKeeps(front);
      PlacedKeeps(Grouped(front), last);
      assert words == front + [last];
    }
  }

  lemma GrownMore(line: seq<Word>, w: Word)
    requires Grown(line) && Overlaps(line, w)
    ensures Grown(line + [w])
  {
    var more := line + [w];
    forall k | 0 < k < |more| ensures Overlaps(more[..k], more[k]) {
      if k < |line| {
        assert more[..k] == line[..k] && more[k] == line[k];
      } else {
        assert more[..k] == line && more[k] == w;
      }
    }
  }

  predicate Above(a: Word, b: Word) { a.y < b.y || (a.y == b.y && a.x <= b.x) }

  predicate TextLe(a: string, b: string) {
    a == [] || (b != [] && (a[0] < b[0] || (a[0] == b[0] && TextLe(a[1..], b[1..]))))
  }

  /** The order of the tuples that stand for words. */
  predicate TupleLe(a: Word, b: Word) {
    if a.x != b.x then a.x < b.x
    else if a.y != b.y then a.y < b.y
    else if a.width != b.width then a.width < b.width
    else if a.height != b.height then a.height < b.height
    else TextLe(a.text, b.text)
  }

  lemma {:induction false} TextLeIsTotal(a: string, b: string)
    ensures TextLe(a, b) || TextLe(b, a)
  {
    if a != [] && b != [] && a[0] == b[0] { TextLeIsTotal(a[1..], b[1..]); }
  }

  lemma {:induction false} TextLeIsTransitive(a: string, b: string, c: string)
    requires TextLe(a, b) && TextLe(b, c)
    ensures TextLe(a, c)
  {
    if a != [] && b != [] && c != [] && a[0] == b[0] == c[0] { TextLeIsTransitive(a[1..], b[1..], c[1..]); }
  }

  lemma TupleLeIsAPreorder()
    ensures TotalPreorder(TupleLe)
  {
    forall a: Word, b: Word ensures TupleLe(a, b) || TupleLe(b, a) { TextLeIsTotal(a.text, b.text); }
    forall a: Word, b: Word, c: Word | TupleLe(a, b) && TupleLe(b, c) ensures TupleLe(a, c) {
      if TextLe(a.text, b.text) && TextLe(b.text, c.text) { TextLeIsTransitive(a.text, b.text, c.text); }
    }
  }

  function Join(words: seq<Word>): string {
    if words == [] then ""
    else if |words| == 1 then words[0].text
    else words[0].text + " " + Join(words[1..])
  }

  /** What is reported of the words of a line. */
  function Reported(line: seq<Word>): Line
    requires line != []
  {
    Line(Join(Sorted(line, TupleLe)), Top(line), Bottom(line))
  }

  /** The text of a line reads from left to right and has every word of the line. */
  lemma ReadsLeftToRight(line: seq<Word>)
    ensures multiset(Sorted(line, TupleLe)) == multiset(line)
    ensures forall i, j | 0 <= i < j < |line| :: Sorted(line, TupleLe)[i].x <= Sorted(line, TupleLe)[j].x
  {
    TupleLeIsAPreorder();
    SortedIsOrdered(line, TupleLe);
    forall i, j | 0 <= i < j < |line| ensures Sorted(line, TupleLe)[i].x <= Sorted(line, TupleLe)[j].x {
      assert TupleLe(Sorted(line, TupleLe)[i], Sorted(line, TupleLe)[j]);
    }
  }

  predicate Higher(a: Line, b: Line) { a.top <= b.top }

  /** Where text `k` begins in a line: behind the texts before it, with one space each. */
  function TextStart(words: seq<Word>, k: nat): nat
    requires k <= |words|
  {
    if k == 0 then 0 else TextStart(words, k - 1) + |words[k - 1].text| + 1
  }

  /** The text is the texts of the words, one space between neighbours and nothing else. */
  predicate Spells(text: string, words: seq<Word>) {
    && |text| + 1 == (if words == [] then 1 else TextStart(words, |words|))
    && forall k | 0 <= k < |words| :: TextIsAt(text, TextStart(words, k), words[k].text)
  }

  /** The part stands there, and a space behind it unless it is the end. */
  predicate TextIsAt(text: string, at: nat, part: string) {
    && at + |part| <= |text| && text[at..at + |part|] == part
    && (at + |part| < |text| ==> text[at + |part|] == ' ')
  }

  lemma {:induction false} TextStartOfRest(words: seq<Word>, k: nat)
    requires 0 < k <= |words|
    ensures TextStart(words, k) == |words[0].text| + 1 + TextStart(words[1..], k - 1)
  {
    if k > 1 { TextStartOfRest(words, k - 1); }
  }

  lemma TextBehind(head: string, rest: string, at: nat, place: nat, part: string)
    requires TextIsAt(rest, at, part) && place == |head| + 1 + at
    ensures TextIsAt(head + " " + rest, place, part)
  {
    var text := head + " " + rest;
    assert text[place..place + |part|] == rest[at..at + |part|];
  }

  lemma {:induction false} JoinLength(words: seq<Word>)
    requires words != []
    ensures |Join(words)| + 1 == TextStart(words, |words|)
  {
    if |words| > 1 {
      JoinLength(words[1..]);
      TextStartOfRest(words, |words|);
    }
  }

  lemma {:induction false} TextStands(words: seq<Word>, k: nat)
    requires k < |words|
    ensures TextIsAt(Join(words), TextStart(words, k), words[k].text)
  {
    if |words| > 1 {
      var rest := Join(words[1..]);
      assert Join(words) == words[0].text + " " + rest;
      if k > 0 {
        TextStands(words[1..], k - 1);
        TextStartOfRest(words, k);
        TextBehind(words[0].text, rest, TextStart(words[1..], k - 1), TextStart(words, k), words[k].text);
      } else {
        TextInFront(words[0].text, rest);
      }
    }
  }

  lemma TextInFront(head: string, rest: string)
    ensures TextIsAt(head + " " + rest, 0, head)
  {
    var text := head + " " + rest;
    assert text[0..|head|] == head && text[|head|] == ' ';
  }

  lemma JoinSpells(words: seq<Word>)
    ensures Spells(Join(words), words)
  {
    if words != [] {
      JoinLength(words);
      forall k | 0 <= k < |words| ensures TextIsAt(Join(words), TextStart(words, k), words[k].text) {
        TextStands(words, k);
      }
    }
  }

  /** The first of left, top, width and height in which they differ is smaller in the first,
      or the first's text comes before the second's in a dictionary. */
  predicate NotBehind(a: Word, b: Word) {
    var x, y := [a.x, a.y, a.width, a.height], [b.x, b.y, b.width, b.height];
    (x == y && Alphabetic(a.text, b.text)) || exists d | 0 <= d < 4 :: x[..d] == y[..d] && x[d] < y[d]
  }

  /** A beginning of it, or smaller in the first character that differs. */
  predicate Alphabetic(a: string, b: string) {
    a <= b || exists d | 0 <= d < |a| && d < |b| :: a[..d] == b[..d] && a[d] < b[d]
  }

  lemma {:induction false} TextLeIsAlphabetic(a: string, b: string)
    requires TextLe(a, b)
    ensures Alphabetic(a, b)
  {
    if a != [] && a[0] == b[0] {
      TextLeIsAlphabetic(a[1..], b[1..]);
      if !(a[1..] <= b[1..]) {
        var d :| 0 <= d < |a| - 1 && d < |b| - 1 && a[1..][..d] == b[1..][..d] && a[1..][d] < b[1..][d];
        assert a[..d + 1] == [a[0]] + a[1..][..d] && b[..d + 1] == [b[0]] + b[1..][..d];
        assert a[d + 1] < b[d + 1];
      } else {
        assert a == [a[0]] + a[1..] && b == [b[0]] + b[1..];
      }
    } else if a != [] {
      assert a[..0] == b[..0];
    }
  }

  lemma TupleLeIsNotBehind(a: Word, b: Word)
    requires TupleLe(a, b)
    ensures NotBehind(a, b)
  {
    var x, y := [a.x, a.y, a.width, a.height], [b.x, b.y, b.width, b.height];
    if a.x < b.x {
      assert x[..0] == y[..0] && x[0] < y[0];
    } else if a.y < b.y {
      assert x[..1] == y[..1] && x[1] < y[1];
    } else if a.width < b.width {
      assert x[..2] == y[..2] && x[2] < y[2];
    } else if a.height < b.height {
      assert x[..3] == y[..3] && x[3] < y[3];
    } else {
      TextLeIsAlphabetic(a.text, b.text);
    }
  }

  /** The line has the words of the group, from left to right, and its extent. */
  ghost predicate Shows(line: Line, group: seq<Word>) {
    && (exists words: seq<Word> :: (
          && multiset(words) == multiset(group) && Spells(line.text, words)
          && forall i, j | 0 <= i < j < |words| :: NotBehind(words[i], words[j])))
    && (forall i | 0 <= i < |group| :: line.top <= group[i].y && group[i].y + group[i].height <= line.bottom)
    && (exists i :: 0 <= i < |group| && line.top == group[i].y)
    && exists i :: 0 <= i < |group| && line.bottom == group[i].y + group[i].height
  }

  lemma ReportedShows(group: seq<Word>)
    requires group != []
    ensures Shows(Reported(group), group)
  {
    var words := Sorted(group, TupleLe);
    JoinSpells(words);
    TupleLeIsAPreorder();
    SortedIsOrdered(group, TupleLe);
    forall i, j | 0 <= i < j < |words| ensures NotBehind(words[i], words[j]) {
      assert TupleLe(words[i], words[j]);
      TupleLeIsNotBehind(words[i], words[j]);
    }
    assert Top(group) <= group[0].y;
    assert group[0].y + group[0].height <= Bottom(group);
  }

  /** `Reported`, and something for no words. */
  function Shown(group: seq<Word>): Line { if group == [] then Line("", 0, 0) else Reported(group) }

  lemma ReportIsMapped(groups: Lines)
    ensures ReportAll(groups) == Mapped(groups, Shown)
  {
  }

  /** The groups in the order of their lines. */
  function InOrder(groups: seq<seq<Word>>): (r: seq<seq<Word>>)
    ensures multiset(r) == multiset(groups) && |r| == |groups|
  {
    Sorted(groups, (a, b) => Higher(Shown(a), Shown(b)))
  }

  lemma LinesShowGroups(groups: Lines)
    ensures
      var lines, shown := Sorted(ReportAll(groups), Higher), InOrder(groups);
      && |lines| == |shown| && (forall i | 0 <= i < |lines| :: Shows(lines[i], shown[i]))
      && forall i, j | 0 <= i < j < |lines| :: lines[i].top <= lines[j].top
  {
    LinesAreMapped(groups);
    GroupsHaveWords(groups);
    forall i | 0 <= i < |groups| ensures Shows(Mapped(InOrder(groups), Shown)[i], InOrder(groups)[i]) {
      ReportedShows(InOrder(groups)[i]);
    }
    TopsIncrease(groups);
  }

  lemma LinesAreMapped(groups: Lines)
    ensures Sorted(ReportAll(groups), Higher) == Mapped(InOrder(groups), Shown)
  {
    ReportIsMapped(groups);
    SortedMapped(groups, Shown, Higher, (a, b) => Higher(Shown(a), Shown(b)));
  }

  lemma GroupsHaveWords(groups: Lines)
    ensures forall i | 0 <= i < |groups| :: InOrder(groups)[i] != []
  {
    forall i | 0 <= i < |groups| ensures InOrder(groups)[i] != [] {
      assert InOrder(groups)[i] in multiset(InOrder(groups));
      assert InOrder(groups)[i] in groups;
    }
  }

  lemma TopsIncrease(groups: Lines)
    ensures
      var lines := Sorted(ReportAll(groups), Higher);
      forall i, j | 0 <= i < j < |lines| :: lines[i].top <= lines[j].top
  {
    assert TotalPreorder(Higher);
    SortedIsOrdered(ReportAll(groups), Higher);
  }

  function ReportAll(groups: Lines): seq<Line> {
    seq(|groups|, i requires 0 <= i < |groups| => Reported(groups[i]))
  }

  /** The lines of the words that the rows contribute. */
  function Groups(rows: seq<Row>, bounds: Rectangle, excluded: seq<Rectangle>): Lines {
    Grouped(Sorted(Visible(rows, bounds, excluded), Above))
  }

  /** The loop over the table. */
  method Filter(rows: seq<Row>, bounds: Rectangle, excluded: seq<Rectangle>) returns (words: seq<Word>)
    ensures words == Visible(rows, bounds, excluded)
  {
    words := [];
    for i := 0 to |rows|
      invariant words == Visible(rows[..i], bounds, excluded)
    {
      assert rows[..i + 1][..i] == rows[..i];
      if Counting(bounds, excluded)(rows[i]) { words := words + [rows[i].word]; }
    }
    assert rows[..|rows|] == rows;
  }

  method Place(lines: Lines, w: Word) returns (more: Lines)
    ensures more == Placed(lines, w)
  {
    var choice := Choose(lines, w);
    more := if choice.Some? then lines[choice.value := lines[choice.value] + [w]] else lines + [[w]];
  }

  /** The loop over the words. */
  method Group(words: seq<Word>) returns (groups: Lines)
    ensures groups == Grouped(words)
  {
    groups := [];
    for n := 0 to |words|
      invariant groups == Grouped(words[..n])
    {
      assert words[..n + 1][..n] == words[..n];
      groups := Place(groups, words[n]);
    }
    assert words[..|words|] == words;
  }

  /** `pixel_lines`. Line `i` shows the words of group `i`; the groups are those of the
      visible words, and the lines run from the top down. */
  method Recognised(rows: seq<Row>, bounds: Rectangle, excluded: seq<Rectangle>)
    returns (lines: seq<Line>, ghost groups: seq<seq<Word>>)
    ensures multiset(groups) == multiset(Groups(rows, bounds, excluded)) && |lines| == |groups|
    ensures forall i | 0 <= i < |lines| :: Shows(lines[i], groups[i])
    ensures forall i, j | 0 <= i < j < |lines| :: lines[i].top <= lines[j].top
    ensures lines == Sorted(ReportAll(Groups(rows, bounds, excluded)), Higher)
  {
    var words := Filter(rows, bounds, excluded);
    var found := Group(Sorted(words, Above));
    lines, groups := Sorted(ReportAll(found), Higher), InOrder(found);
    LinesShowGroups(found);
  }

  /** The candidates and the nearest of them. */
  method Choose(lines: Lines, w: Word) returns (choice: Option<nat>)
    ensures choice == Smallest(Offers(lines, w), |lines|)
  {
    choice := None;
    var offers := Offers(lines, w);
    for index := 0 to |lines|
      invariant choice == Smallest(offers, index)
    {
      if Better(offers, index, choice) { choice := Some(index); }
    }
  }

  /** Every visible word is in exactly one of the lines that are reported; each line has
      grown by overlap and is reported with its true extent; and the report runs from the
      top down. */
  lemma EveryWordOnce(rows: seq<Row>, bounds: Rectangle, excluded: seq<Rectangle>)
    ensures
      var groups := Groups(rows, bounds, excluded);
      var lines := Sorted(ReportAll(groups), Higher);
      && Flat(groups) == multiset(Visible(rows, bounds, excluded))
      && (forall i | 0 <= i < |groups| :: Grown(groups[i]))
      && |lines| == |groups| && multiset(lines) == multiset(ReportAll(groups)) && Ordered(lines, Higher)
  {
    var groups := Groups(rows, bounds, excluded);
    GroupedKeeps(Sorted(Visible(rows, bounds, excluded), Above));
    assert TotalPreorder(Higher);
    SortedIsOrdered(ReportAll(groups), Higher);
  }

  /** The visible words are the level 5 words with text that lie inside the bounds and
      touch no excluded rectangle, each as often as it occurs. */
  lemma VisibleWords(rows: seq<Row>, bounds: Rectangle, excluded: seq<Rectangle>, w: Word)
    ensures multiset(Visible(rows, bounds, excluded))[w]
      == |set i: nat | i < |rows| && rows[i].word == w && Counts(rows[i], bounds, excluded)|
  {
    ChosenOccurs(rows, Counting(bounds, excluded), (row: Row) => row.word, w);
    assert Sources(rows, Counting(bounds, excluded), (row: Row) => row.word, w)
      == set i: nat | i < |rows| && rows[i].word == w && Counts(rows[i], bounds, excluded);
  }
}
