/**
 * Greedy wrapping of the title on a share card (internal/sharecard/card.go). The width
 * of a text is whatever the font says: an arbitrary function.
 */
module Wrapping {
  import opened Prelude

  type Width = string -> int

  const ELLIPSIS := "..."

  const UNTITLED := "CHALLENGE"

  /** `unicode.IsSpace`. */
  predicate IsSpace(c: char) {
    var u := c as int;
    9 <= u <= 13 || u == 32 || u == 0x85 || u == 0xA0 || u == 0x1680 || 0x2000 <= u <= 0x200a
    || u == 0x2028 || u == 0x2029 || u == 0x202f || u == 0x205f || u == 0x3000
  }

  /** The text without its white space. */
  function Letters(s: string): string {
    if s == "" then "" else (if IsSpace(s[0]) then "" else [s[0]]) + Letters(s[1..])
  }

  predicate Solid(s: string) {
    s != "" && forall i :: 0 <= i < |s| ==> !IsSpace(s[i])
  }

  function Concat(parts: seq<string>): string {
    if parts == [] then "" else parts[0] + Concat(parts[1..])
  }

  /** `strings.Fields`, where `word` is the word being read. */
  function Fields(word: string, s: string): seq<string>
    decreases |s|
  {
    if s == "" then if word == "" then [] else [word]
    else if !IsSpace(s[0]) then Fields(word + [s[0]], s[1..])
    else (if word == "" then [] else [word]) + Fields("", s[1..])
  }

  function TrimRight(s: string): string {
    if s != "" && IsSpace(s[|s| - 1]) then TrimRight(s[..|s| - 1]) else s
  }

  function TrimSpace(s: string): string {
    if s != "" && IsSpace(s[0]) then TrimSpace(s[1..]) else TrimRight(s)
  }

  // ----- specification -----

  /** The chunks of a word, where `chunk` is the one being filled. */
  function Split(width: Width, maximum: int, chunk: string, rest: string): seq<string>
    decreases |rest|
  {
    if rest == "" then if chunk == "" then [] else [chunk]
    else if chunk != "" && width(chunk + [rest[0]]) > maximum then [chunk] + Split(width, maximum, [rest[0]], rest[1..])
    else Split(width, maximum, chunk + [rest[0]], rest[1..])
  }

  function Chunks(width: Width, maximum: int, word: string): seq<string> {
    if width(word) <= maximum then [word] else Split(width, maximum, "", word)
  }

  function AllChunks(width: Width, maximum: int, words: seq<string>): seq<string> {
    if words == [] then [] else Chunks(width, maximum, words[0]) + AllChunks(width, maximum, words[1..])
  }

  function Spaced(a: string, b: string): string {
    a + " " + b
  }

  function Candidate(line: string, chunk: string): string {
    if line == "" then chunk else Spaced(line, chunk)
  }

  /** The lines that the chunks fill, where `line` is the one being filled. */
  function Fill(width: Width, maximum: int, line: string, chunks: seq<string>): seq<string>
    decreases |chunks|
  {
    if chunks == [] then if line == "" then [] else [line]
    else if width(Candidate(line, chunks[0])) <= maximum then
      Fill(width, maximum, Candidate(line, chunks[0]), chunks[1..])
    else (if line == "" then [] else [line]) + Fill(width, maximum, chunks[0], chunks[1..])
  }

  /** All lines of a title, however many they are. */
  function Wrapped(width: Width, maximum: int, value: string): seq<string> {
    var words := Fields("", value);
    if words == [] then [UNTITLED] else Fill(width, maximum, "", AllChunks(width, maximum, words))
  }

  /** `r` is the longest beginning of `s` that fits with an ellipsis, trimmed. */
  ghost predicate IsTruncated(width: Width, maximum: int, s: string, r: string) {
    if width(s) <= maximum then r == s
    else exists n :: IsCut(width, maximum, s, n) && r == TrimSpace(s[..n]) + ELLIPSIS
  }

  ghost predicate IsCut(width: Width, maximum: int, s: string, n: int) {
    && 0 <= n <= |s|
    && (n > 0 ==> width(s[..n] + ELLIPSIS) <= maximum)
    && (forall m :: n < m <= |s| ==> width(s[..m] + ELLIPSIS) > maximum)
  }

  /** The lines are those of `Wrapped`, or the first `maxLines` of them with the last one truncated. */
  ghost predicate IsWrapped(width: Width, value: string, maximum: int, maxLines: int, lines: seq<string>)
    requires maxLines >= 1
  {
    var all := Wrapped(width, maximum, value);
    if |all| <= maxLines then lines == all
    else
      && |lines| == maxLines
      && lines[..maxLines - 1] == all[..maxLines - 1]
      && IsTruncated(width, maximum, all[maxLines - 1] + ELLIPSIS, lines[maxLines - 1])
  }

  // ----- the program -----

  /** One round of the loop in `SplitToWidth`. */
  lemma SplitStep(width: Width, maximum: int, chunks: seq<string>, chunk: string, rest: string)
    requires rest != ""
    ensures var full := chunk != "" && width(chunk + [rest[0]]) > maximum;
            chunks + Split(width, maximum, chunk, rest) ==
            if full then chunks + [chunk] + Split(width, maximum, "" + [rest[0]], rest[1..])
            else chunks + Split(width, maximum, chunk + [rest[0]], rest[1..])
  {
    assert "" + [rest[0]] == [rest[0]];
  }

  /** One round of the inner loop in `WrapToWidth`. */
  lemma FillStep(width: Width, maximum: int, lines: seq<string>, line: string, chunks: seq<string>)
    requires chunks != []
    ensures lines + Fill(width, maximum, line, chunks) ==
            if width(Candidate(line, chunks[0])) <= maximum then
              lines + Fill(width, maximum, Candidate(line, chunks[0]), chunks[1..])
            else
              (if line == "" then lines else lines + [line]) + Fill(width, maximum, chunks[0], chunks[1..])
  {
  }

  method SplitToWidth(width: Width, value: string, maximum: int) returns (chunks: seq<string>)
    ensures chunks == Chunks(width, maximum, value)
  {
    if width(value) <= maximum {
      return [value];
    }
    chunks := [];
    var chunk := "";
    for i := 0 to |value|
      invariant chunks + Split(width, maximum, chunk, value[i..]) == Split(width, maximum, "", value)
    {
      var character := value[i];
      SplitStep(width, maximum, chunks, chunk, value[i..]);
      assert value[i..][1..] == value[i + 1..];
      var candidate := chunk + [character];
      if |chunk| > 0 && width(candidate) > maximum {
        chunks := chunks + [chunk];
        chunk := "";
      }
      chunk := chunk + [character];
    }
    if |chunk| > 0 {
      chunks := chunks + [chunk];
    }
  }

  method TruncateToWidth(width: Width, value: string, maximum: int) returns (r: string)
    ensures IsTruncated(width, maximum, value, r)
  {
    if width(value) <= maximum {
      return value;
    }
    var runes := value;
    while |runes| > 0 && width(runes + ELLIPSIS) > maximum
      invariant |runes| <= |value| && runes == value[..|runes|]
      invariant forall m :: |runes| < m <= |value| ==> width(value[..m] + ELLIPSIS) > maximum
    {
      runes := runes[..|runes| - 1];
    }
    assert IsCut(width, maximum, value, |runes|);
    r := TrimSpace(runes) + ELLIPSIS;
  }

  lemma NextWord(width: Width, maximum: int, words: seq<string>, w: nat)
    requires w < |words|
    ensures AllChunks(width, maximum, words[w..]) ==
            Chunks(width, maximum, words[w]) + AllChunks(width, maximum, words[w + 1..])
  {
    assert words[w..][1..] == words[w + 1..];
  }

  lemma NothingPending(width: Width, maximum: int, words: seq<string>, lines: seq<string>, line: string)
    ensures lines + Fill(width, maximum, line, AllChunks(width, maximum, words[|words|..])) ==
            if line == "" then lines else lines + [line]
  {
  }

  /** The nested loops of `wrapToWidth`. */
  method FillLines(width: Width, words: seq<string>, maximum: int) returns (lines: seq<string>)
    ensures lines == Fill(width, maximum, "", AllChunks(width, maximum, words))
  {
    ghost var whole := Fill(width, maximum, "", AllChunks(width, maximum, words));
    lines := [];
    var line := "";
    assert words[0..] == words;
    for w := 0 to |words|
      invariant lines + Fill(width, maximum, line, AllChunks(width, maximum, words[w..])) == whole
    {
      var chunks := SplitToWidth(width, words[w], maximum);
      ghost var later := AllChunks(width, maximum, words[w + 1..]);
      NextWord(width, maximum, words, w);
      ghost var pending := chunks + later;
      for c := 0 to |chunks|
        invariant pending == chunks[c..] + later
        invariant lines + Fill(width, maximum, line, pending) == whole
      {
        FillStep(width, maximum, lines, line, pending);
        Tail(pending, chunks[c..], later);
        assert chunks[c..][1..] == chunks[c + 1..];
        pending := pending[1..];
        var chunk := chunks[c];
        var candidate := chunk;
        if line != "" {
          candidate := line + " " + chunk;
        }
        if width(candidate) <= maximum {
          line := candidate;
        } else {
          if line != "" {
            lines := lines + [line];
          }
          line := chunk;
        }
      }
      assert pending == later;
    }
    NothingPending(width, maximum, words, lines, line);
    if line != "" {
      lines := lines + [line];
    }
  }

  method WrapToWidth(width: Width, value: string, maximum: int, maxLines: int) returns (lines: seq<string>)
    requires maxLines >= 1
    ensures IsWrapped(width, value, maximum, maxLines, lines)
  {
    var words := Fields("", value);
    if |words| == 0 {
      return [UNTITLED];
    }
    lines := FillLines(width, words, maximum);
    if |lines| > maxLines {
      lines := lines[..maxLines];
      var last := TruncateToWidth(width, lines[maxLines - 1] + ELLIPSIS, maximum);
      lines := lines[maxLines - 1 := last];
    }
  }

  // ----- the lines spell the title -----

  predicate Joinable(word: string) { word == "" || Solid(word) }

  lemma ConcatCons(word: string, words: seq<string>)
    ensures Concat([word] + words) == word + Concat(words)
  {
    assert ([word] + words)[1..] == words;
  }

  /** The words are what is left of the text when the white space is taken out. */
  lemma {:induction false} FieldsSpell(word: string, s: string)
    requires Joinable(word)
    ensures forall w :: w in Fields(word, s) ==> Solid(w)
    ensures Concat(Fields(word, s)) == word + Letters(s)
    decreases |s|
  {
    if s == "" {
      ConcatCons(word, []);
      assert [word] + [] == [word];
    } else if !IsSpace(s[0]) {
      FieldsSpell(word + [s[0]], s[1..]);
      assert word + [s[0]] + Letters(s[1..]) == word + ([s[0]] + Letters(s[1..]));
    } else {
      FieldsSpell("", s[1..]);
      ConcatCons(word, Fields("", s[1..]));
      assert [] + Fields("", s[1..]) == Fields("", s[1..]);
      assert "" + Letters(s[1..]) == Letters(s[1..]);
    }
  }

  lemma {:induction false} FieldsOfSolid(word: string, s: string)
    requires Joinable(word) && Joinable(s)
    ensures Fields(word, s) == if word + s == "" then [] else [word + s]
    decreases |s|
  {
    if s != "" {
      assert !IsSpace(s[0]);
      FieldsOfSolid(word + [s[0]], s[1..]);
      assert word + [s[0]] + s[1..] == word + s;
    } else {
      assert word + s == word;
    }
  }

  lemma {:induction false} FieldsAppend(word: string, a: string, b: string)
    ensures Fields(word, a + " " + b) == Fields(word, a) + Fields("", b)
    decreases |a|
  {
    var s := a + " " + b;
    if a == "" {
      assert s[1..] == b;
    } else {
      assert s[1..] == a[1..] + " " + b;
      if !IsSpace(a[0]) {
        FieldsAppend(word + [a[0]], a[1..], b);
      } else {
        FieldsAppend("", a[1..], b);
      }
    }
  }

  lemma {:induction false} ConcatAppend(a: seq<string>, b: seq<string>)
    ensures Concat(a + b) == Concat(a) + Concat(b)
  {
    if a == [] {
      assert a + b == b;
      assert Concat([]) + Concat(b) == Concat(b);
    } else {
      ConcatAppend(a[1..], b);
      assert (a + b)[1..] == a[1..] + b && (a + b)[0] == a[0];
      assert Concat(a + b) == a[0] + Concat(a[1..] + b);
    }
  }

  predicate FitsOrGlyph(width: Width, maximum: int, s: string) {
    width(s) <= maximum || |s| == 1
  }

  /** The chunks concatenate to the word, and each fits or is a single glyph. */
  lemma {:induction false} SplitSpells(width: Width, maximum: int, chunk: string, rest: string)
    requires Joinable(chunk) && Joinable(rest)
    requires chunk != "" ==> FitsOrGlyph(width, maximum, chunk)
    ensures Concat(Split(width, maximum, chunk, rest)) == chunk + rest
    ensures forall c :: c in Split(width, maximum, chunk, rest) ==> Solid(c) && FitsOrGlyph(width, maximum, c)
    decreases |rest|
  {
    var chunks := Split(width, maximum, chunk, rest);
    if rest == "" {
      if chunk != "" {
        assert chunks[1..] == [];
      }
    } else if chunk != "" && width(chunk + [rest[0]]) > maximum {
      SplitSpells(width, maximum, [rest[0]], rest[1..]);
      assert chunks[1..] == Split(width, maximum, [rest[0]], rest[1..]);
    } else {
      SplitSpells(width, maximum, chunk + [rest[0]], rest[1..]);
    }
  }

  lemma {:induction false} SplitGreedy(width: Width, maximum: int, chunk: string, rest: string)
    requires chunk + rest != ""
    ensures var chunks := Split(width, maximum, chunk, rest);
            && |chunks| >= 1
            && (chunk != "" ==> chunk <= chunks[0])
            && (chunk == "" ==> [rest[0]] <= chunks[0])
            && forall i :: 0 < i < |chunks| ==> |chunks[i]| > 0 && width(chunks[i - 1] + [chunks[i][0]]) > maximum
    decreases |rest|
  {
    if rest != "" {
      if chunk != "" && width(chunk + [rest[0]]) > maximum {
        SplitGreedy(width, maximum, [rest[0]], rest[1..]);
      } else {
        SplitGreedy(width, maximum, chunk + [rest[0]], rest[1..]);
      }
    }
  }

  /** The chunks of a word spell it, each fits or is a single glyph, and none could have taken one more glyph. */
  lemma ChunksOfWord(width: Width, maximum: int, word: string)
    requires Solid(word)
    ensures Concat(Chunks(width, maximum, word)) == word
    ensures forall c :: c in Chunks(width, maximum, word) ==> Solid(c) && FitsOrGlyph(width, maximum, c)
    ensures var chunks := Chunks(width, maximum, word);
            forall i :: 0 < i < |chunks| ==> |chunks[i]| > 0 && width(chunks[i - 1] + [chunks[i][0]]) > maximum
  {
    if width(word) <= maximum {
      ConcatCons(word, []);
      assert [word] + [] == [word];
    } else {
      SplitSpells(width, maximum, "", word);
      SplitGreedy(width, maximum, "", word);
    }
  }

  lemma {:induction false} AllChunksSpell(width: Width, maximum: int, words: seq<string>)
    requires forall w :: w in words ==> Solid(w)
    ensures Concat(AllChunks(width, maximum, words)) == Concat(words)
    ensures forall c :: c in AllChunks(width, maximum, words) ==> Solid(c) && FitsOrGlyph(width, maximum, c)
    ensures (forall w :: w in words ==> width(w) <= maximum) ==> AllChunks(width, maximum, words) == words
  {
    if words != [] {
      AllChunksSpell(width, maximum, words[1..]);
      ChunksOfWord(width, maximum, words[0]);
      ConcatAppend(Chunks(width, maximum, words[0]), AllChunks(width, maximum, words[1..]));
    }
  }

  /** The lines, one after the other with a space between them. */
  function Joined(lines: seq<string>): string {
    if lines == [] then "" else if |lines| == 1 then lines[0] else Spaced(lines[0], Joined(lines[1..]))
  }

  /** The words on the lines. */
  function Held(lines: seq<string>): seq<string> {
    Fields("", Joined(lines))
  }

  lemma FieldsOfCandidate(line: string, chunk: string)
    requires Solid(chunk)
    ensures Fields("", Candidate(line, chunk)) == Fields("", line) + [chunk]
    ensures Fields("", chunk) == [chunk]
  {
    FieldsOfSolid("", chunk);
    assert "" + chunk == chunk;
    FieldsAppend("", line, chunk);
  }

  lemma HeldCons(line: string, later: seq<string>)
    requires later != []
    ensures Held((if line == "" then [] else [line]) + later) == Fields("", line) + Held(later)
  {
    if line == "" {
      assert [] + later == later;
    } else {
      assert ([line] + later)[1..] == later;
      FieldsAppend("", line, Joined(later));
    }
  }

  /** Putting one more chunk on the line, or starting the next line with it, keeps the words in order. */
  lemma HeldStep(width: Width, maximum: int, line: string, chunks: seq<string>)
    requires chunks != [] && Solid(chunks[0])
    requires width(Candidate(line, chunks[0])) <= maximum ==>
               Held(Fill(width, maximum, Candidate(line, chunks[0]), chunks[1..]))
               == Fields("", Candidate(line, chunks[0])) + chunks[1..]
    requires width(Candidate(line, chunks[0])) > maximum ==>
               && Fill(width, maximum, chunks[0], chunks[1..]) != []
               && Held(Fill(width, maximum, chunks[0], chunks[1..])) == Fields("", chunks[0]) + chunks[1..]
    ensures Held(Fill(width, maximum, line, chunks)) == Fields("", line) + chunks
  {
    FieldsOfCandidate(line, chunks[0]);
    Regroup(Fields("", line), chunks);
    if width(Candidate(line, chunks[0])) > maximum {
      HeldCons(line, Fill(width, maximum, chunks[0], chunks[1..]));
    }
  }

  lemma Regroup(front: seq<string>, chunks: seq<string>)
    requires chunks != []
    ensures [chunks[0]] + chunks[1..] == chunks
    ensures front + [chunks[0]] + chunks[1..] == front + chunks
  {
  }

  lemma {:induction false} FillHoldsChunks(width: Width, maximum: int, line: string, chunks: seq<string>)
    requires forall i :: 0 <= i < |chunks| ==> Solid(chunks[i])
    ensures Held(Fill(width, maximum, line, chunks)) == Fields("", line) + chunks
    ensures line != "" || chunks != [] ==> Fill(width, maximum, line, chunks) != []
    decreases |chunks|
  {
    if chunks == [] {
      HeldLine(line);
    } else {
      if width(Candidate(line, chunks[0])) <= maximum {
        FillHoldsChunks(width, maximum, Candidate(line, chunks[0]), chunks[1..]);
      } else {
        FillHoldsChunks(width, maximum, chunks[0], chunks[1..]);
      }
      HeldStep(width, maximum, line, chunks);
    }
  }

  lemma HeldLine(line: string)
    ensures Held(if line == "" then [] else [line]) == Fields("", line)
  {
  }

  /**
   * When nothing is cut the lines spell the title: without white space they are its
   * letters in order, and when every word fits a line they hold exactly its words.
   */
  lemma LinesSpellTitle(width: Width, maximum: int, value: string)
    requires Fields("", value) != []
    ensures Letters(Joined(Wrapped(width, maximum, value))) == Letters(value)
    ensures (forall w :: w in Fields("", value) ==> width(w) <= maximum) ==>
              Fields("", Joined(Wrapped(width, maximum, value))) == Fields("", value)
  {
    var words := Fields("", value);
    var chunks := AllChunks(width, maximum, words);
    FieldsSpell("", value);
    AllChunksSpell(width, maximum, words);
    FillHoldsChunks(width, maximum, "", chunks);
    assert [] + chunks == chunks;
    FieldsSpell("", Joined(Wrapped(width, maximum, value)));
    assert "" + Letters(value) == Letters(value);
    assert "" + Letters(Joined(Wrapped(width, maximum, value))) == Letters(Joined(Wrapped(width, maximum, value)));
  }

  // ----- the lines fit -----

  lemma {:induction false} FillFits(width: Width, maximum: int, line: string, chunks: seq<string>)
    requires line != "" ==> FitsOrGlyph(width, maximum, line)
    requires forall c :: c in chunks ==> FitsOrGlyph(width, maximum, c)
    ensures forall l :: l in Fill(width, maximum, line, chunks) ==> FitsOrGlyph(width, maximum, l)
    decreases |chunks|
  {
    if chunks != [] {
      if width(Candidate(line, chunks[0])) <= maximum {
        FillFits(width, maximum, Candidate(line, chunks[0]), chunks[1..]);
      } else {
        FillFits(width, maximum, chunks[0], chunks[1..]);
      }
    }
  }

  /** Trimming white space in front of an ellipsis never widens the text. */
  ghost predicate TrimNeverWidens(width: Width) {
    forall s :: width(TrimSpace(s) + ELLIPSIS) <= width(s + ELLIPSIS)
  }

  /**
   * At most `maxLines` lines, each of which fits, or is a single glyph, the fallback for
   * an empty title or a bare ellipsis.
   */
  lemma LinesFit(width: Width, value: string, maximum: int, maxLines: int, lines: seq<string>)
    requires maxLines >= 1 && IsWrapped(width, value, maximum, maxLines, lines) && TrimNeverWidens(width)
    ensures 1 <= |lines| <= maxLines
    ensures forall l :: l in lines ==>
              FitsOrGlyph(width, maximum, l) || l == ELLIPSIS || (l == UNTITLED && Fields("", value) == [])
  {
    var words, all := Fields("", value), Wrapped(width, maximum, value);
    if words != [] {
      var chunks := AllChunks(width, maximum, words);
      FieldsSpell("", value);
      AllChunksSpell(width, maximum, words);
      FillFits(width, maximum, "", chunks);
      WrappedNonEmpty(width, maximum, value);
      if |all| > maxLines {
        var s, r := all[maxLines - 1] + ELLIPSIS, lines[maxLines - 1];
        TruncatedFits(width, maximum, s, r);
        forall l | l in lines
          ensures FitsOrGlyph(width, maximum, l) || l == ELLIPSIS
        {
          var i :| 0 <= i < |lines| && lines[i] == l;
          if i < maxLines - 1 {
            assert lines[..maxLines - 1][i] == all[..maxLines - 1][i];
            assert all[i] in all;
          }
        }
      }
    }
  }

  lemma WrappedNonEmpty(width: Width, maximum: int, value: string)
    ensures Wrapped(width, maximum, value) != []
  {
    var words := Fields("", value);
    if words != [] {
      FieldsSpell("", value);
      AllChunksSpell(width, maximum, words);
      var chunks := AllChunks(width, maximum, words);
      assert words[0] in words;
      if width(words[0]) > maximum {
        SplitGreedy(width, maximum, "", words[0]);
      }
      FillHoldsChunks(width, maximum, "", chunks);
    }
  }

  lemma TruncatedFits(width: Width, maximum: int, s: string, r: string)
    requires IsTruncated(width, maximum, s, r) && TrimNeverWidens(width)
    ensures width(r) <= maximum || r == ELLIPSIS
  {
    if width(s) > maximum {
      var n :| IsCut(width, maximum, s, n) && r == TrimSpace(s[..n]) + ELLIPSIS;
      if n == 0 {
        assert TrimSpace(s[..0]) == "";
      }
    }
  }

  // ----- a line that is cut -----

  predicate AllSpace(s: string) { forall i :: 0 <= i < |s| ==> IsSpace(s[i]) }

  /** What trimming leaves: no white space at either end, and only white space is gone. */
  ghost predicate TrimmedTo(s: string, before: string, t: string, after: string) {
    && s == before + t + after && AllSpace(before) && AllSpace(after)
    && (t != "" ==> !IsSpace(t[0]) && !IsSpace(t[|t| - 1]))
  }

  lemma {:induction false} TrimRightLeaves(s: string) returns (after: string)
    ensures s == TrimRight(s) + after && AllSpace(after)
    ensures TrimRight(s) != "" ==> TrimRight(s)[0] == s[0] && !IsSpace(TrimRight(s)[|TrimRight(s)| - 1])
  {
    after := "";
    if s != "" && IsSpace(s[|s| - 1]) {
      var rest := TrimRightLeaves(s[..|s| - 1]);
      after := rest + [s[|s| - 1]];
      assert s == s[..|s| - 1] + [s[|s| - 1]];
    }
  }

  /** Trimming takes off white space at both ends, all of it, and nothing else. */
  lemma {:induction false} TrimSpaceLeaves(s: string) returns (before: string, after: string)
    ensures TrimmedTo(s, before, TrimSpace(s), after)
  {
    before := "";
    if s != "" && IsSpace(s[0]) {
      before, after := TrimSpaceLeaves(s[1..]);
      before := [s[0]] + before;
      assert s == [s[0]] + s[1..];
    } else {
      after := TrimRightLeaves(s);
    }
  }

  lemma {:induction false} FillStartsSolid(width: Width, maximum: int, line: string, chunks: seq<string>)
    requires line != "" ==> !IsSpace(line[0])
    requires forall c :: c in chunks ==> Solid(c)
    ensures forall l :: l in Fill(width, maximum, line, chunks) ==> l != "" && !IsSpace(l[0])
    decreases |chunks|
  {
    if chunks != [] {
      assert chunks[0] in chunks;
      if width(Candidate(line, chunks[0])) <= maximum {
        FillStartsSolid(width, maximum, Candidate(line, chunks[0]), chunks[1..]);
      } else {
        FillStartsSolid(width, maximum, chunks[0], chunks[1..]);
      }
    }
  }

  lemma WrappedStartsSolid(width: Width, maximum: int, value: string)
    ensures forall l :: l in Wrapped(width, maximum, value) ==> l != "" && !IsSpace(l[0])
  {
    var words := Fields("", value);
    if words != [] {
      FieldsSpell("", value);
      AllChunksSpell(width, maximum, words);
      FillStartsSolid(width, maximum, "", AllChunks(width, maximum, words));
    }
  }

  /** The line begins the text, goes on in it with white space only as far as it is cut, and ends in an ellipsis. */
  ghost predicate CutsFrom(width: Width, maximum: int, text: string, line: string, kept: string, n: int) {
    && line == kept + "..." && |kept| <= n && IsCut(width, maximum, text, n) && kept == text[..|kept|]
    && AllSpace(text[|kept|..n]) && (kept != "" ==> !IsSpace(kept[|kept| - 1]))
  }

  lemma NothingBefore(s: string, before: string, t: string, after: string)
    requires TrimmedTo(s, before, t, after) && (s != "" ==> !IsSpace(s[0]))
    ensures before == ""
  {
  }

  ghost predicate CutsOff(width: Width, maximum: int, text: string, line: string) {
    exists kept, n :: CutsFrom(width, maximum, text, line, kept, n)
  }

  lemma CutBegins(width: Width, maximum: int, text: string, line: string)
    requires text != "" && !IsSpace(text[0]) && width(text) > maximum && IsTruncated(width, maximum, text, line)
    ensures CutsOff(width, maximum, text, line)
  {
    var n :| IsCut(width, maximum, text, n) && line == TrimSpace(text[..n]) + ELLIPSIS;
    var s := text[..n];
    var before, after := TrimSpaceLeaves(s);
    NothingBefore(s, before, TrimSpace(s), after);
    var kept := TrimSpace(s);
    assert s == kept + after;
    assert text[..|kept|] == s[..|kept|] && text[|kept|..n] == s[|kept|..];
    assert CutsFrom(width, maximum, text, line, kept, n);
  }

  /**
   * A title of too many lines: all lines before the last are whole, and the last is the
   * longest beginning of the line it cuts that fits with an ellipsis, less white space
   * at its end; or that line with an ellipsis, when both fit.
   */
  lemma CutLine(width: Width, value: string, maximum: int, maxLines: int, lines: seq<string>)
    requires maxLines >= 1 && IsWrapped(width, value, maximum, maxLines, lines)
    requires |Wrapped(width, maximum, value)| > maxLines
    ensures |lines| == maxLines && lines[..maxLines - 1] == Wrapped(width, maximum, value)[..maxLines - 1]
    ensures var text := Wrapped(width, maximum, value)[maxLines - 1] + "...";
            if width(text) <= maximum then lines[maxLines - 1] == text
            else CutsOff(width, maximum, text, lines[maxLines - 1])
  {
    var all := Wrapped(width, maximum, value);
    var text := all[maxLines - 1] + "...";
    WrappedStartsSolid(width, maximum, value);
    assert all[maxLines - 1] in all;
    if width(text) > maximum {
      CutBegins(width, maximum, text, lines[maxLines - 1]);
    }
  }

  // ----- the lines are as few as possible -----

  /** The text before the first space. */
  function FirstChunk(s: string): string {
    if s == "" || s[0] == ' ' then "" else [s[0]] + FirstChunk(s[1..])
  }

  lemma {:induction false} FirstChunkOf(a: string, b: string)
    ensures FirstChunk(a + " " + b) == FirstChunk(a)
    ensures Solid(a) ==> FirstChunk(a) == a
  {
    if a != "" {
      if |a| > 1 || a[0] == ' ' {
        FirstChunkOf(a[1..], b);
      } else {
        FirstChunkOf("", b);
      }
      assert (a + " " + b)[1..] == a[1..] + " " + b;
    }
  }

  lemma {:induction false} FillGreedy(width: Width, maximum: int, line: string, chunks: seq<string>)
    requires forall c :: c in chunks ==> Solid(c)
    requires line != "" || chunks != []
    ensures var lines := Fill(width, maximum, line, chunks);
            && lines != []
            && FirstChunk(lines[0]) == FirstChunk(if line != "" then line else chunks[0])
            && forall i :: 0 < i < |lines| ==> width(lines[i - 1] + " " + FirstChunk(lines[i])) > maximum
    decreases |chunks|
  {
    if chunks != [] {
      assert chunks[0] in chunks;
      FirstChunkOf(line, chunks[0]);
      FirstChunkOf(chunks[0], "");
      if width(Candidate(line, chunks[0])) <= maximum {
        FillGreedy(width, maximum, Candidate(line, chunks[0]), chunks[1..]);
      } else {
        FillGreedy(width, maximum, chunks[0], chunks[1..]);
      }
    }
  }

  /** No line could have taken the first chunk of the next one. */
  lemma LinesAreGreedy(width: Width, maximum: int, value: string)
    requires Fields("", value) != []
    ensures var lines := Wrapped(width, maximum, value);
            forall i :: 0 < i < |lines| ==> width(lines[i - 1] + " " + FirstChunk(lines[i])) > maximum
  {
    FieldsSpell("", value);
    AllChunksSpell(width, maximum, Fields("", value));
    WrappedNonEmpty(width, maximum, value);
    FillGreedy(width, maximum, "", AllChunks(width, maximum, Fields("", value)));
  }

  /** A text is no narrower than what stands before or after one of its spaces. */
  ghost predicate Monotone(width: Width) {
    forall a, b :: width(a) <= width(Spaced(a, b)) && width(b) <= width(Spaced(a, b))
  }

  lemma SpacedTwice(a: string, b: string, c: string)
    ensures Spaced(a, Spaced(b, c)) == Spaced(Spaced(a, b), c)
  {
    assert a + " " + (b + " " + c) == a + " " + b + " " + c;
  }

  predicate NonEmpty(chunks: seq<string>) {
    forall i :: 0 <= i < |chunks| ==> chunks[i] != ""
  }

  /** Starting a line with less on it never needs more lines, and saves at most one. */
  lemma {:induction false} Restart(width: Width, maximum: int, p: string, s: string, chunks: seq<string>)
    requires Monotone(width) && s != "" && NonEmpty(chunks)
    ensures |Fill(width, maximum, s, chunks)| <= |Fill(width, maximum, Spaced(p, s), chunks)|
            <= |Fill(width, maximum, s, chunks)| + 1
    decreases |chunks|
  {
    if chunks != [] {
      var c, rest := chunks[0], chunks[1..];
      SpacedTwice(p, s, c);
      if width(Spaced(Spaced(p, s), c)) <= maximum {
        Restart(width, maximum, p, Spaced(s, c), rest);
      } else if width(Spaced(s, c)) <= maximum {
        Restart(width, maximum, s, c, rest);
      }
    }
  }

  function Flatten(groups: seq<seq<string>>): seq<string> {
    if groups == [] then [] else groups[0] + Flatten(groups[1..])
  }

  /** Some way to put chunks on lines: a line fits, or holds a single chunk. */
  ghost predicate Arrangement(width: Width, maximum: int, groups: seq<seq<string>>) {
    forall g :: g in groups ==> g != [] && (|g| == 1 || width(Joined(g)) <= maximum)
  }

  /** A text that fits still fits when chunks are taken off its end. */
  lemma {:induction false} ShorterFits(width: Width, maximum: int, line: string, rest: seq<string>)
    requires Monotone(width) && rest != [] && width(Spaced(line, Joined(rest))) <= maximum
    ensures width(Spaced(line, rest[0])) <= maximum
    ensures |rest| > 1 ==> width(Spaced(Spaced(line, rest[0]), Joined(rest[1..]))) <= maximum
  {
    if |rest| > 1 {
      SpacedTwice(line, rest[0], Joined(rest[1..]));
    }
  }

  lemma FillSize(width: Width, maximum: int, line: string, chunks: seq<string>)
    requires Monotone(width) && NonEmpty(chunks) && chunks != [] && line != ""
    ensures width(Spaced(line, chunks[0])) <= maximum ==>
              |Fill(width, maximum, line, chunks)| == |Fill(width, maximum, Spaced(line, chunks[0]), chunks[1..])|
    ensures |Fill(width, maximum, line, chunks)| <= 1 + |Fill(width, maximum, chunks[0], chunks[1..])|
  {
    if width(Spaced(line, chunks[0])) <= maximum {
      Restart(width, maximum, line, chunks[0], chunks[1..]);
    }
  }

  lemma Tail(chunks: seq<string>, rest: seq<string>, later: seq<string>)
    requires chunks == rest + later && rest != []
    ensures chunks[0] == rest[0] && chunks[1..] == rest[1..] + later
  {
  }

  lemma {:induction false} StaysAhead(
    width: Width, maximum: int, line: string, rest: seq<string>, groups: seq<seq<string>>, chunks: seq<string>)
    requires Monotone(width) && line != "" && Arrangement(width, maximum, groups)
    requires rest != [] ==> width(Spaced(line, Joined(rest))) <= maximum
    requires chunks == rest + Flatten(groups) && NonEmpty(chunks)
    ensures |Fill(width, maximum, line, chunks)| <= 1 + |groups|
    decreases |groups|, |rest|
  {
    if rest != [] {
      ShorterFits(width, maximum, line, rest);
      Tail(chunks, rest, Flatten(groups));
      FillSize(width, maximum, line, chunks);
      StaysAhead(width, maximum, Spaced(line, rest[0]), rest[1..], groups, chunks[1..]);
    } else if groups != [] {
      var group := FirstGroup(width, maximum, groups, chunks);
      FillSize(width, maximum, line, chunks);
      StaysAhead(width, maximum, group[0], group[1..], groups[1..], chunks[1..]);
    }
  }

  lemma {:induction false} FirstGroup(width: Width, maximum: int, groups: seq<seq<string>>, chunks: seq<string>)
    returns (group: seq<string>)
    requires Arrangement(width, maximum, groups) && groups != [] && chunks == Flatten(groups)
    ensures group != [] && chunks != [] && chunks[0] == group[0] && chunks[1..] == group[1..] + Flatten(groups[1..])
    ensures |group| > 1 ==> width(Spaced(group[0], Joined(group[1..]))) <= maximum
    ensures Arrangement(width, maximum, groups[1..])
  {
    group := groups[0];
    assert group in groups;
    assert chunks[1..] == group[1..] + Flatten(groups[1..]);
  }

  lemma {:induction false} FillFewest(width: Width, maximum: int, groups: seq<seq<string>>, chunks: seq<string>)
    requires Monotone(width) && Arrangement(width, maximum, groups)
    requires chunks == Flatten(groups) && NonEmpty(chunks)
    ensures |Fill(width, maximum, "", chunks)| <= |groups|
  {
    if groups != [] {
      var group := FirstGroup(width, maximum, groups, chunks);
      StaysAhead(width, maximum, group[0], group[1..], groups[1..], chunks[1..]);
    }
  }

  lemma ChunksNonEmpty(width: Width, maximum: int, value: string)
    ensures NonEmpty(AllChunks(width, maximum, Fields("", value)))
  {
    FieldsSpell("", value);
    AllChunksSpell(width, maximum, Fields("", value));
    var chunks := AllChunks(width, maximum, Fields("", value));
    forall i | 0 <= i < |chunks|
      ensures chunks[i] != ""
    {
      assert Solid(chunks[i]);
    }
  }

  /** Greedy wrapping is optimal: no arrangement of the same chunks has fewer lines. */
  lemma {:induction false} FewestLines(width: Width, maximum: int, value: string, groups: seq<seq<string>>)
    requires Monotone(width) && Arrangement(width, maximum, groups)
    requires Fields("", value) != [] && Flatten(groups) == AllChunks(width, maximum, Fields("", value))
    ensures |Wrapped(width, maximum, value)| <= |groups|
  {
    ChunksNonEmpty(width, maximum, value);
    FillFewest(width, maximum, groups, Flatten(groups));
  }
}
