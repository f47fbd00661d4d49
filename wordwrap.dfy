/**
 * The description word-wrap of the layout canvas: the description of an
 * output is split at whitespace and its words are packed greedily into
 * lines of at most `maxChars` bytes, a word that is longer on its own
 * taking a line by itself.
 */
module WordWrap {

  /** The characters Unicode classes as White_Space, which the word split breaks at. */
  predicate IsWhitespace(c: char) {
    var v := c as int;
    || (0x09 <= v <= 0x0D) || v == 0x20 || v == 0x85 || v == 0xA0 || v == 0x1680
    || (0x2000 <= v <= 0x200A) || v == 0x2028 || v == 0x2029 || v == 0x202F
    || v == 0x205F || v == 0x3000
  }

  /** On ASCII the split breaks at tab, line feed, vertical tab, form feed, carriage return and space. */
  lemma AsciiWhitespace(c: char)
    requires c as int < 0x80
    ensures IsWhitespace(c) <==> c as int in {0x09, 0x0A, 0x0B, 0x0C, 0x0D, 0x20}
  {
  }

  predicate NoWhitespace(s: string) {
    forall k :: 0 <= k < |s| ==> !IsWhitespace(s[k])
  }

  /** A word as the split yields it: non-empty and free of whitespace. */
  predicate IsWord(w: string) {
    w != [] && NoWhitespace(w)
  }

  predicate AllWords(ws: seq<string>) {
    forall k :: 0 <= k < |ws| ==> IsWord(ws[k])
  }

  /** The number of bytes the UTF-8 encoding of `c` takes. */
  function CharLen(c: char): (n: nat)
    ensures 1 <= n <= 4
  {
    if c as int < 0x80 then 1
    else if c as int < 0x800 then 2
    else if c as int < 0x10000 then 3
    else 4
  }

  /** The length of a string as its byte length in UTF-8. */
  function Utf8Len(s: string): (n: nat)
    ensures |s| <= n <= 4 * |s|
  {
    if s == [] then 0 else Utf8Len(s[..|s| - 1]) + CharLen(s[|s| - 1])
  }

  /** Byte lengths add up under concatenation. */
  lemma {:induction false} Utf8LenAppend(a: string, b: string)
    ensures Utf8Len(a + b) == Utf8Len(a) + Utf8Len(b)
    decreases |b|
  {
    if b == [] {
      assert a + b == a;
    } else {
      var b' := b[..|b| - 1];
      assert (a + b)[..|a + b| - 1] == a + b';
      Utf8LenAppend(a, b');
    }
  }

  /** The end of the word that starts at `i`: the next whitespace or the end of `s`. */
  function WordEnd(s: string, i: nat): (e: nat)
    requires i <= |s|
    ensures i <= e <= |s| && (e == |s| || IsWhitespace(s[e]))
    ensures forall k :: i <= k < e ==> !IsWhitespace(s[k])
    decreases |s| - i
  {
    if i == |s| || IsWhitespace(s[i]) then i else WordEnd(s, i + 1)
  }

  /** The maximal whitespace-free runs of `s`, in order (the split at whitespace). */
  function Words(s: string): (ws: seq<string>)
    ensures AllWords(ws)
    decreases |s|
  {
    if s == [] then []
    else if IsWhitespace(s[0]) then Words(s[1..])
    else
      var e := WordEnd(s, 0);
      assert IsWord(s[..e]);
      [s[..e]] + Words(s[e..])
  }

  /** The strings of `ws` joined with single spaces. */
  function JoinSpace(ws: seq<string>): string {
    if ws == [] then ""
    else if |ws| == 1 then ws[0]
    else JoinSpace(ws[..|ws| - 1]) + " " + ws[|ws| - 1]
  }

  /** A run that ends at whitespace ends at the same place once more text follows. */
  lemma {:induction false} WordEndAppend(a: string, c: char, b: string, i: nat)
    requires i <= |a| && IsWhitespace(c)
    ensures WordEnd(a + [c] + b, i) == WordEnd(a, i)
    decreases |a| - i
  {
    if i < |a| && !IsWhitespace(a[i]) {
      assert (a + [c] + b)[i] == a[i];
      WordEndAppend(a, c, b, i + 1);
    } else if i == |a| {
      assert (a + [c] + b)[i] == c;
    } else {
      assert (a + [c] + b)[i] == a[i];
    }
  }

  /** Splitting text around a whitespace character splits each side on its own. */
  lemma {:induction false} WordsAppend(a: string, c: char, b: string)
    requires IsWhitespace(c)
    ensures Words(a + [c] + b) == Words(a) + Words(b)
    decreases |a|
  {
    var s := a + [c] + b;
    if a == [] {
      assert s[1..] == b;
    } else if IsWhitespace(a[0]) {
      assert s[1..] == a[1..] + [c] + b;
      WordsAppend(a[1..], c, b);
    } else {
      WordEndAppend(a, c, b, 0);
      var e := WordEnd(a, 0);
      assert s[..e] == a[..e];
      assert s[e..] == a[e..] + [c] + b;
      WordsAppend(a[e..], c, b);
    }
  }

  /** A word splits into itself. */
  lemma WordsOfWord(w: string)
    requires IsWord(w)
    ensures Words(w) == [w]
  {
    assert WordEnd(w, 0) == |w|;
    assert w[..|w|] == w && w[|w|..] == [];
  }

  /** Splitting words joined with single spaces gives back the words. */
  lemma {:induction false} WordsOfJoinSpace(ws: seq<string>)
    requires AllWords(ws)
    ensures Words(JoinSpace(ws)) == ws
  {
    if |ws| == 1 {
      WordsOfWord(ws[0]);
    } else if |ws| > 1 {
      var init, last := ws[..|ws| - 1], ws[|ws| - 1];
      assert JoinSpace(ws) == JoinSpace(init) + [' '] + last;
      assert IsWhitespace(' ');
      WordsAppend(JoinSpace(init), ' ', last);
      WordsOfJoinSpace(init);
      WordsOfWord(last);
      assert init + [last] == ws;
    }
  }

  /** The strings of `ws` run together. */
  function Concat(ws: seq<string>): string {
    if ws == [] then "" else ws[0] + Concat(ws[1..])
  }

  /** `s` with every whitespace character removed. */
  function Stripped(s: string): string {
    if s == [] then "" else (if IsWhitespace(s[0]) then "" else [s[0]]) + Stripped(s[1..])
  }

  /** A prefix free of whitespace is kept whole by stripping. */
  lemma {:induction false} StrippedRun(s: string, e: nat)
    requires e <= |s| && NoWhitespace(s[..e])
    ensures Stripped(s) == s[..e] + Stripped(s[e..])
    decreases e
  {
    if e > 0 {
      assert s[..e][0] == s[0];
      assert s[1..][..e - 1] == s[..e][1..];
      StrippedRun(s[1..], e - 1);
      assert s[1..][e - 1..] == s[e..];
      assert s[..e] == [s[0]] + s[1..][..e - 1];
    }
  }

  /** The words hold exactly the non-whitespace characters of the text, in order. */
  lemma {:induction false} WordsKeepText(s: string)
    ensures Concat(Words(s)) == Stripped(s)
    decreases |s|
  {
    if s != [] {
      if IsWhitespace(s[0]) {
        WordsKeepText(s[1..]);
      } else {
        var e := WordEnd(s, 0);
        StrippedRun(s, e);
        WordsKeepText(s[e..]);
        assert ([s[..e]] + Words(s[e..]))[1..] == Words(s[e..]);
      }
    }
  }

  /** The prefix of `s` before its first space. */
  function FirstWord(s: string): (f: string)
    ensures |f| <= |s| && f == s[..|f|]
  {
    if s == [] || s[0] == ' ' then "" else [s[0]] + FirstWord(s[1..])
  }

  lemma {:induction false} FirstWordOfWord(w: string)
    requires NoWhitespace(w)
    ensures FirstWord(w) == w
    decreases |w|
  {
    if w != [] {
      assert IsWhitespace(' ');
      FirstWordOfWord(w[1..]);
    }
  }

  /** Text appended after a space does not change the first word. */
  lemma {:induction false} FirstWordExtend(c: string, t: string)
    ensures FirstWord(c + " " + t) == FirstWord(c)
    decreases |c|
  {
    if c == [] {
      assert (c + " " + t)[0] == ' ';
    } else if c[0] != ' ' {
      assert (c + " " + t)[1..] == c[1..] + " " + t;
      FirstWordExtend(c[1..], t);
    }
  }

  /** The state of the wrap loop: the finished lines and the line being filled. */
  datatype WrapState = WrapState(lines: seq<string>, current: string)

  /**
   * One step of the wrap loop: `word` opens a new line when the line being
   * filled is not empty and would grow beyond `maxChars` bytes; otherwise it
   * is appended, after a space unless the line is empty.
   */
  function Step(st: WrapState, word: string, maxChars: nat): (r: WrapState)
    ensures r.lines == st.lines || r.lines == st.lines + [st.current]
    ensures r.lines != st.lines ==> st.current != [] && Utf8Len(st.current) + Utf8Len(word) + 1 > maxChars
  {
    if Utf8Len(st.current) + Utf8Len(word) + 1 > maxChars && st.current != [] then
      WrapState(st.lines + [st.current], word)
    else if st.current == [] then
      WrapState(st.lines, word)
    else
      WrapState(st.lines, st.current + " " + word)
  }

  /** The wrap loop run over `words`. */
  function Fold(words: seq<string>, maxChars: nat): (st: WrapState)
    ensures words == [] ==> st == WrapState([], "")
    ensures words != [] ==> |st.lines| < |words|
  {
    if words == [] then WrapState([], "")
    else Step(Fold(words[..|words| - 1], maxChars), words[|words| - 1], maxChars)
  }

  /** The lines a state stands for: the finished lines and the last one if it is not empty. */
  function Lines(st: WrapState): seq<string> {
    if st.current != [] then st.lines + [st.current] else st.lines
  }

  /** The wrapped lines of `words`. */
  function Wrap(words: seq<string>, maxChars: nat): (lines: seq<string>)
    ensures |lines| <= |words|
  {
    Lines(Fold(words, maxChars))
  }

  /** A line that takes more than `maxChars` bytes is one of the words. */
  predicate FitsOrSingle(line: string, words: seq<string>, maxChars: nat) {
    Utf8Len(line) <= maxChars || line in words
  }

  /** Each line but the last had no room left for the first word of the next line. */
  predicate Greedy(lines: seq<string>, maxChars: nat) {
    forall k :: 0 <= k < |lines| - 1 ==> Utf8Len(lines[k]) + 1 + Utf8Len(FirstWord(lines[k + 1])) > maxChars
  }

  predicate NonEmptyLines(lines: seq<string>) {
    forall k :: 0 <= k < |lines| ==> lines[k] != []
  }

  /** Every line that takes more than `maxChars` bytes is one of `words`. */
  predicate AllFit(lines: seq<string>, words: seq<string>, maxChars: nat) {
    forall k :: 0 <= k < |lines| ==> FitsOrSingle(lines[k], words, maxChars)
  }

  /** What the wrap loop keeps true of its state after the words `ws`. */
  predicate WrapInv(st: WrapState, ws: seq<string>, maxChars: nat) {
    var all := Lines(st);
    && (st.current == [] <==> ws == [])
    && (st.current == [] ==> st.lines == [])
    && NonEmptyLines(all)
    && JoinSpace(all) == JoinSpace(ws)
    && AllFit(all, ws, maxChars)
    && Greedy(all, maxChars)
  }

  /** Appending after a space to the last string extends the joined text by that space. */
  lemma JoinSpaceExtendLast(lines: seq<string>, c: string, w: string)
    ensures JoinSpace(lines + [c + " " + w]) == JoinSpace(lines + [c]) + " " + w
  {
    if lines != [] {
      assert (lines + [c + " " + w])[..|lines|] == lines;
      assert (lines + [c])[..|lines|] == lines;
    }
  }

  lemma JoinSpaceSnoc(lines: seq<string>, c: string)
    requires lines != []
    ensures JoinSpace(lines + [c]) == JoinSpace(lines) + " " + c
  {
    assert (lines + [c])[..|lines|] == lines;
  }

  lemma FitAppend(lines: seq<string>, ws: seq<string>, w: string, maxChars: nat)
    requires AllFit(lines, ws, maxChars)
    ensures AllFit(lines + [w], ws + [w], maxChars)
  {
    forall k | 0 <= k < |lines| + 1
      ensures FitsOrSingle((lines + [w])[k], ws + [w], maxChars)
    {
      if k < |lines| {
        assert FitsOrSingle(lines[k], ws, maxChars);
      } else {
        assert (lines + [w])[k] == (ws + [w])[|ws|];
      }
    }
  }

  lemma FitExtendLast(lines: seq<string>, c: string, ws: seq<string>, w: string, maxChars: nat)
    requires AllFit(lines + [c], ws, maxChars)
    requires Utf8Len(c + " " + w) <= maxChars
    ensures AllFit(lines + [c + " " + w], ws + [w], maxChars)
  {
    forall k | 0 <= k < |lines| + 1
      ensures FitsOrSingle((lines + [c + " " + w])[k], ws + [w], maxChars)
    {
      if k < |lines| {
        assert (lines + [c + " " + w])[k] == (lines + [c])[k];
        assert FitsOrSingle((lines + [c])[k], ws, maxChars);
      }
    }
  }

  lemma GreedyAppend(lines: seq<string>, w: string, maxChars: nat)
    requires Greedy(lines, maxChars) && lines != [] && NoWhitespace(w)
    requires Utf8Len(lines[|lines| - 1]) + Utf8Len(w) + 1 > maxChars
    ensures Greedy(lines + [w], maxChars)
  {
    FirstWordOfWord(w);
    forall k | 0 <= k < |lines|
      ensures Utf8Len((lines + [w])[k]) + 1 + Utf8Len(FirstWord((lines + [w])[k + 1])) > maxChars
    {
      if k + 1 < |lines| {
        assert (lines + [w])[k + 1] == lines[k + 1];
      }
    }
  }

  lemma GreedyExtendLast(lines: seq<string>, c: string, w: string, maxChars: nat)
    requires Greedy(lines + [c], maxChars)
    ensures Greedy(lines + [c + " " + w], maxChars)
  {
    var all, all' := lines + [c], lines + [c + " " + w];
    FirstWordExtend(c, w);
    forall k | 0 <= k < |all'| - 1
      ensures Utf8Len(all'[k]) + 1 + Utf8Len(FirstWord(all'[k + 1])) > maxChars
    {
      assert all'[k] == all[k];
      if k + 1 < |lines| {
        assert all'[k + 1] == all[k + 1];
      } else {
        assert all'[k + 1] == c + " " + w && all[k + 1] == c;
      }
    }
  }

  lemma NonEmptyAppend(lines: seq<string>, w: string)
    requires NonEmptyLines(lines) && w != []
    ensures NonEmptyLines(lines + [w])
  {
    assert forall k :: 0 <= k < |lines| ==> (lines + [w])[k] == lines[k];
  }

  /** A step that opens a new line keeps the invariant. */
  lemma StepBreakInv(st: WrapState, ws: seq<string>, w: string, maxChars: nat)
    requires WrapInv(st, ws, maxChars) && IsWord(w)
    requires Utf8Len(st.current) + Utf8Len(w) + 1 > maxChars && st.current != []
    ensures WrapInv(Step(st, w, maxChars), ws + [w], maxChars)
  {
    var all := Lines(st);
    assert Lines(Step(st, w, maxChars)) == all + [w];
    JoinSpaceSnoc(all, w);
    JoinSpaceSnoc(ws, w);
    NonEmptyAppend(all, w);
    FitAppend(all, ws, w, maxChars);
    GreedyAppend(all, w, maxChars);
  }

  /** A step that appends to the line being filled keeps the invariant. */
  lemma StepAppendInv(st: WrapState, ws: seq<string>, w: string, maxChars: nat)
    requires WrapInv(st, ws, maxChars) && IsWord(w)
    requires !(Utf8Len(st.current) + Utf8Len(w) + 1 > maxChars && st.current != [])
    ensures WrapInv(Step(st, w, maxChars), ws + [w], maxChars)
  {
    if st.current == [] {
      assert ws + [w] == [w];
    } else {
      var c := st.current;
      assert Lines(st) == st.lines + [c];
      assert Lines(Step(st, w, maxChars)) == st.lines + [c + " " + w];
      Utf8LenAppend(c, " ");
      Utf8LenAppend(c + " ", w);
      JoinSpaceExtendLast(st.lines, c, w);
      JoinSpaceSnoc(ws, w);
      NonEmptyAppend(st.lines, c + " " + w);
      FitExtendLast(st.lines, c, ws, w, maxChars);
      GreedyExtendLast(st.lines, c, w, maxChars);
    }
  }

  /** The wrap loop keeps its invariant over any sequence of words. */
  lemma {:induction false} FoldInv(ws: seq<string>, maxChars: nat)
    requires AllWords(ws)
    ensures WrapInv(Fold(ws, maxChars), ws, maxChars)
    decreases |ws|
  {
    if ws != [] {
      var init := ws[..|ws| - 1];
      var w := ws[|ws| - 1];
      assert ws == init + [w];
      FoldInv(init, maxChars);
      var st := Fold(init, maxChars);
      if Utf8Len(st.current) + Utf8Len(w) + 1 > maxChars && st.current != [] {
        StepBreakInv(st, init, w, maxChars);
      } else {
        StepAppendInv(st, init, w, maxChars);
      }
    }
  }

  /**
   * The wrapped lines of any words: no line is empty; joining the lines with
   * single spaces gives the words joined with single spaces; a line longer
   * than `maxChars` bytes is a single word; and each line but the last could
   * not take the first word of the next one.
   */
  lemma WrapProperties(ws: seq<string>, maxChars: nat)
    requires AllWords(ws)
    ensures NonEmptyLines(Wrap(ws, maxChars))
    ensures JoinSpace(Wrap(ws, maxChars)) == JoinSpace(ws)
    ensures forall k :: 0 <= k < |Wrap(ws, maxChars)| && Utf8Len(Wrap(ws, maxChars)[k]) > maxChars ==>
      Wrap(ws, maxChars)[k] in ws
    ensures Greedy(Wrap(ws, maxChars), maxChars)
    ensures ws == [] <==> Wrap(ws, maxChars) == []
  {
    FoldInv(ws, maxChars);
  }

  /**
   * The wrap loop over the words of `description`: the line being filled is
   * pushed when the next word does not fit, and the last line is pushed when
   * it is not empty.
   */
  method WrapDescription(description: string, maxChars: nat) returns (lines: seq<string>)
    ensures lines == Wrap(Words(description), maxChars)
    ensures NonEmptyLines(lines)
    ensures JoinSpace(lines) == JoinSpace(Words(description))
    ensures forall k :: 0 <= k < |lines| && Utf8Len(lines[k]) > maxChars ==> lines[k] in Words(description)
    ensures Greedy(lines, maxChars)
  {
    var words := Words(description);
    lines := [];
    var current := "";
    for i := 0 to |words|
      invariant WrapState(lines, current) == Fold(words[..i], maxChars)
    {
      var word := words[i];
      assert words[..i + 1][..i] == words[..i];
      if Utf8Len(current) + Utf8Len(word) + 1 > maxChars && current != [] {
        lines := lines + [current];
        current := word;
      } else {
        if current != [] {
          current := current + " ";
        }
        current := current + word;
      }
    }
    assert words[..|words|] == words;
    if current != [] {
      lines := lines + [current];
    }
    WrapProperties(words, maxChars);
  }
}
