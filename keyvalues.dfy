// The line layout shared by the two KeyValues ("VDF") texts the generator
// writes: two spaces of indentation per nesting level, quoted keys and
// values, braces on lines of their own, every line but the outermost
// closing brace ended by "\n".
module KeyValues {

  /** Two spaces per nesting level. */
  function Indent(depth: nat): (s: string)
    ensures |s| == 2 * depth
  {
    if depth == 0 then "" else Indent(depth - 1) + "  "
  }

  function Quoted(s: string): string {
    "\"" + s + "\""
  }

  /** A key on its own line, opening a nested block. */
  function Name(depth: nat, key: string): string {
    Indent(depth) + Quoted(key)
  }

  /** A scalar entry: key and value on one line. */
  function Pair(depth: nat, key: string, value: string): string {
    Name(depth, key) + " " + Quoted(value)
  }

  function Open(depth: nat): string {
    Indent(depth) + "{"
  }

  function Close(depth: nat): string {
    Indent(depth) + "}"
  }

  /** What every scalar line with this key at this depth starts with. */
  function FieldPrefix(depth: nat, key: string): string {
    Name(depth, key) + " \""
  }

  predicate IsField(line: string, depth: nat, key: string) {
    FieldPrefix(depth, key) <= line
  }

  /** Some line of `ls` is a scalar entry with this key at this depth. */
  predicate HasField(ls: seq<string>, depth: nat, key: string) {
    exists l :: l in ls && IsField(l, depth, key)
  }

  /** Each line followed by a line break, in order. */
  function Lines(ls: seq<string>): string
    decreases |ls|
  {
    if ls == [] then "" else Lines(ls[..|ls| - 1]) + ls[|ls| - 1] + "\n"
  }

  /** A whole text: the lines of its body, then the outermost "}" with no
      line break after it. */
  function Document(body: seq<string>): string {
    Lines(body) + Close(0)
  }

  predicate OccursAt(text: string, piece: string, at: nat) {
    at + |piece| <= |text| && text[at..at + |piece|] == piece
  }

  lemma LinesSnoc(ls: seq<string>, l: string)
    ensures Lines(ls + [l]) == Lines(ls) + l + "\n"
  {
    assert (ls + [l])[..|ls|] == ls;
  }

  lemma {:induction false} LinesAppend(a: seq<string>, b: seq<string>)
    ensures Lines(a + b) == Lines(a) + Lines(b)
    decreases |b|
  {
    if b == [] {
      assert a + b == a;
    } else {
      var b' := b[..|b| - 1];
      var l := b[|b| - 1];
      assert b == b' + [l];
      assert a + b == (a + b') + [l];
      LinesSnoc(a + b', l);
      LinesAppend(a, b');
      LinesSnoc(b', l);
    }
  }

  lemma LinesThree(a: string, b: string, c: string)
    ensures Lines([a, b, c]) == a + "\n" + b + "\n" + c + "\n"
  {
    LinesSnoc([], a);
    assert [a] == [] + [a];
    LinesSnoc([a], b);
    assert [a, b] == [a] + [b];
    LinesSnoc([a, b], c);
    assert [a, b, c] == [a, b] + [c];
  }

  /** Every line is at least its own line break long. */
  lemma {:induction false} LinesLength(ls: seq<string>)
    ensures |Lines(ls)| >= |ls|
    decreases |ls|
  {
    if ls != [] {
      LinesLength(ls[..|ls| - 1]);
    }
  }

  /** Line `i` of the body stands in the text, with its line break, right
      after the lines before it. */
  lemma LineOccurs(ls: seq<string>, i: nat)
    requires i < |ls|
    ensures OccursAt(Lines(ls), ls[i] + "\n", |Lines(ls[..i])|)
  {
    assert ls == ls[..i] + [ls[i]] + ls[i + 1..];
    LinesAppend(ls[..i] + [ls[i]], ls[i + 1..]);
    LinesSnoc(ls[..i], ls[i]);
  }

  lemma LineOccursInDocument(ls: seq<string>, i: nat)
    requires i < |ls|
    ensures OccursAt(Document(ls), ls[i] + "\n", |Lines(ls[..i])|)
  {
    LineOccurs(ls, i);
    var at := |Lines(ls[..i])|;
    var piece := ls[i] + "\n";
    assert Document(ls)[at..at + |piece|] == Lines(ls)[at..at + |piece|];
  }

  /** Lines further down the body start further into the text. */
  lemma LineOffsetsIncrease(ls: seq<string>, i: nat, j: nat)
    requires i < j <= |ls|
    ensures |Lines(ls[..i])| < |Lines(ls[..j])|
  {
    assert ls[..j] == ls[..i] + ls[i..j];
    LinesAppend(ls[..i], ls[i..j]);
    LinesLength(ls[i..j]);
  }

  /** A text opens with the lines of its first part and ends with its last
      line and the outermost closing brace. */
  lemma DocumentFrame(first: seq<string>, mid: seq<string>, last: string)
    ensures Lines(first) <= Document(first + mid + [last])
    ensures var t := Document(first + mid + [last]);
      var tail := Lines([last]) + Close(0);
      |tail| <= |t| && t[|t| - |tail|..] == tail
  {
    LinesAppend(first + mid, [last]);
    LinesAppend(first, mid);
    var a, b, c := Lines(first), Lines(mid), Lines([last]) + Close(0);
    assert Document(first + mid + [last]) == a + b + c;
    assert (a + b + c)[..|a|] == a;
  }

  /** A text made of three runs of lines and a last line. */
  lemma DocumentParts(a: seq<string>, b: seq<string>, c: seq<string>, last: string)
    ensures Document(a + b + c + [last]) == Lines(a) + Lines(b) + Lines(c) + (Lines([last]) + Close(0))
  {
    LinesAppend(a + b + c, [last]);
    LinesAppend(a + b, c);
    LinesAppend(a, b);
  }

  /** A scalar entry is a field of its own key only, provided keys hold
      no quote. */
  lemma PairOtherKey(depth: nat, k: string, v: string, key: string)
    requires '"' !in k && '"' !in key && k != key
    ensures !IsField(Pair(depth, k, v), depth, key)
  {
    var line := Pair(depth, k, v);
    var p := FieldPrefix(depth, key);
    var d := 2 * depth + 1;
    assert line == Indent(depth) + "\"" + (k + "\" \"" + v + "\"");
    assert p == Indent(depth) + "\"" + (key + "\" \"");
    if |key| < |k| {
      assert line[d + |key|] == k[|key|] != p[d + |key|];
    } else if |k| < |key| {
      assert p[d + |k|] == key[|k|] != line[d + |k|];
    } else {
      var i :| 0 <= i < |k| && k[i] != key[i];
      assert line[d + i] == k[i] != key[i] == p[d + i];
    }
  }

  /** A line that opens a nested block is no scalar entry. */
  lemma NameNotField(depth: nat, k: string, key: string)
    requires '"' !in k
    ensures !IsField(Name(depth, k), depth, key)
  {
    var line := Name(depth, k);
    var p := FieldPrefix(depth, key);
    var d := 2 * depth + 1;
    assert line == Indent(depth) + "\"" + (k + "\"");
    assert p == Indent(depth) + "\"" + (key + "\" \"");
    if |key| + 2 <= |k| {
      assert line[d + |key|] == k[|key|] != p[d + |key|];
    }
  }

  /** A line without a quote where a key at this depth would open is no
      scalar entry at this depth. */
  lemma NoQuoteNotField(line: string, depth: nat, key: string)
    requires |line| <= 2 * depth || line[2 * depth] != '"'
    ensures !IsField(line, depth, key)
  {
    var p := FieldPrefix(depth, key);
    assert p[2 * depth] == '"';
  }

  lemma PairIsField(depth: nat, key: string, value: string)
    ensures IsField(Pair(depth, key, value), depth, key)
  {
    assert Pair(depth, key, value) == FieldPrefix(depth, key) + value + "\"";
  }
}
