// The document chunker of scripts/chunk-documents.ts: chunk ids, document ids,
// the token-range optimiser and the statistics over the emitted chunks.
// The tokenizer (`count`) and the recursive character splitter (`splitText`)
// are parameters.
module Chunker {
  import opened Wrappers
  import opened Text
  import SafeFs
  import Sorting

  const TargetMin: nat := 480
  const TargetMax: nat := 520
  /** A piece below this many tokens is never emitted on its own. */
  const MinTokens: nat := 300

  predicate InTarget(t: int) { TargetMin <= t <= TargetMax }

  // ---------------------------------------------------------------- chunk ids

  /** `${docId}_chunk_${index.toString().padStart(3, '0')}`. */
  function GenerateChunkId(docId: string, chunkIndex: nat): (id: string)
    ensures StartsWith(id, docId + "_chunk_") && |id| >= |docId| + 10
  {
    docId + "_chunk_" + PadStart(NatToString(chunkIndex), 3, '0')
  }

  lemma {:induction false} ZerosParse(z: string)
    requires forall k :: 0 <= k < |z| ==> z[k] == '0'
    ensures AllDigits(z) && ParseDigits(z) == 0
  {
    if |z| > 0 {
      ZerosParse(z[..|z| - 1]);
    }
  }

  /** Leading zeros do not change the value of a digit string. */
  lemma {:induction false} LeadingZerosParse(z: string, s: string)
    requires forall k :: 0 <= k < |z| ==> z[k] == '0'
    requires AllDigits(s)
    ensures AllDigits(z + s) && ParseDigits(z + s) == ParseDigits(s)
  {
    if |s| == 0 {
      assert z + s == z;
      ZerosParse(z);
    } else {
      var init := s[..|s| - 1];
      LeadingZerosParse(z, init);
      assert (z + s)[..|z + s| - 1] == z + init;
    }
  }

  lemma NatToStringShort(n: nat)
    requires n < 1000
    ensures |NatToString(n)| <= 3
  {
    if n >= 10 {
      if n >= 100 {
        assert |NatToString(n / 10 / 10)| == 1;
      }
    }
  }

  /** The digits after `_chunk_` read back as the index; below 1000 they are exactly three. */
  lemma ChunkIdIndex(docId: string, chunkIndex: nat)
    ensures var id := GenerateChunkId(docId, chunkIndex);
      StartsWith(id, docId + "_chunk_") && AllDigits(id[|docId| + 7..])
      && ParseDigits(id[|docId| + 7..]) == chunkIndex
      && (chunkIndex < 1000 ==> |id| == |docId| + 10)
  {
    var digits := NatToString(chunkIndex);
    var padded := PadStart(digits, 3, '0');
    var id := GenerateChunkId(docId, chunkIndex);
    assert id == (docId + "_chunk_") + padded;
    assert id[|docId| + 7..] == padded;
    ParseNatToString(chunkIndex);
    if |digits| < 3 {
      LeadingZerosParse(Repeat('0', 3 - |digits|), digits);
    }
    if chunkIndex < 1000 {
      NatToStringShort(chunkIndex);
    }
  }

  /** Different indices of one document give different ids. */
  lemma ChunkIdsDistinct(docId: string, i: nat, j: nat)
    requires i != j
    ensures GenerateChunkId(docId, i) != GenerateChunkId(docId, j)
  {
    ChunkIdIndex(docId, i);
    ChunkIdIndex(docId, j);
  }

  // ---------------------------------------------------------------- document ids

  const MdSuffix: string := ".md"

  /**
   * `path.basename(p, '.md')` (POSIX): the last segment without a trailing
   * `.md`, kept whole when it is exactly `.md`. When the suffix is longer than
   * the path the plain basename is returned; when the last segment is a proper
   * tail of `.md`, the segment comes back with the trailing separators.
   */
  function FileStem(p: string): string
  {
    if |p| < |MdSuffix| then SafeFs.BaseName(p)
    else if p == MdSuffix then ""
    else
      var t := SafeFs.StripTrailing(p);
      var start := SafeFs.LastIndex(t, '/') + 1;
      var base := t[start..];
      if |base| > |MdSuffix| && EndsWith(base, MdSuffix) then base[..|base| - |MdSuffix|]
      else if |base| < |MdSuffix| && EndsWith(MdSuffix, base) then p[start..]
      else base
  }

  /**
   * `path.dirname` (POSIX): everything before the last separator that is
   * followed by a non-separator, ignoring the first character; `/` or `.` when
   * there is none, and `//` for a path that starts with two separators.
   */
  function DirName(p: string): string
  {
    if |p| == 0 then "."
    else
      var t := SafeFs.StripTrailing(p);
      var e := SafeFs.LastIndex(t, '/');
      if e < 1 then (if p[0] == '/' then "/" else ".")
      else if p[0] == '/' && e == 1 then "//"
      else p[..e]
  }

  /** `${basename(dirname(filePath))}_${basename(filePath, '.md')}`. */
  function ExtractDocId(filePath: string): string
  {
    SafeFs.BaseName(DirName(filePath)) + "_" + FileStem(filePath)
  }

  lemma LastSlash(x: string, y: string)
    requires '/' !in y
    ensures SafeFs.LastIndex(x + "/" + y, '/') == |x|
  {
    var s := x + "/" + y;
    assert s == (x + "/") + y;
    SafeFs.LastIndexSkips(x + "/", y, '/');
  }

  lemma NoSlash(y: string)
    requires '/' !in y
    ensures SafeFs.LastIndex(y, '/') == -1
  {
    assert "" + y == y;
    SafeFs.LastIndexSkips("", y, '/');
  }

  lemma StripNothing(p: string)
    requires |p| > 0 && p[|p| - 1] != '/'
    ensures SafeFs.StripTrailing(p) == p
  {
  }

  lemma DirNameOfFile(dir: string, file: string)
    requires |dir| > 0 && dir[|dir| - 1] != '/'
    requires |file| > 0 && '/' !in file && file[|file| - 1] != '/'
    ensures DirName(dir + "/" + file) == dir
  {
    var p := dir + "/" + file;
    StripNothing(p);
    LastSlash(dir, file);
  }

  lemma BaseNameOfDirectory(parent: string, directory: string)
    requires parent == "" || parent[|parent| - 1] == '/'
    requires |directory| > 0 && '/' !in directory
    ensures SafeFs.BaseName(parent + directory) == directory
  {
    var dir := parent + directory;
    StripNothing(dir);
    if parent == "" {
      assert dir == directory;
      NoSlash(directory);
    } else {
      var pre := parent[..|parent| - 1];
      assert dir == pre + "/" + directory;
      LastSlash(pre, directory);
    }
  }

  lemma FileStemOfFile(dir: string, name: string)
    requires '/' !in name && |name| > 0
    ensures FileStem(dir + "/" + name + MdSuffix) == name
  {
    var file := name + MdSuffix;
    var p := dir + "/" + file;
    assert '/' !in file by {
      assert forall k :: 0 <= k < |file| ==> file[k] == (if k < |name| then name[k] else MdSuffix[k - |name|]);
    }
    assert dir + "/" + name + MdSuffix == p;
    StripNothing(p);
    LastSlash(dir, file);
    assert |p| > |MdSuffix|;
    assert p[|dir| + 1..] == file;
    assert file[|file| - 3..] == MdSuffix;
    assert EndsWith(file, MdSuffix);
    assert file[..|file| - 3] == name;
  }

  /** A file `<parent>/<directory>/<name>.md` gets the id `<directory>_<name>`. */
  lemma ExtractDocIdOfLayout(parent: string, directory: string, name: string)
    requires parent == "" || parent[|parent| - 1] == '/'
    requires |directory| > 0 && '/' !in directory
    requires |name| > 0 && '/' !in name
    ensures ExtractDocId(parent + directory + "/" + name + MdSuffix) == directory + "_" + name
  {
    var dir := parent + directory;
    var file := name + MdSuffix;
    assert parent + directory + "/" + name + MdSuffix == dir + "/" + file;
    assert '/' !in file by {
      assert forall k :: 0 <= k < |file| ==> file[k] == (if k < |name| then name[k] else MdSuffix[k - |name|]);
    }
    DirNameOfFile(dir, file);
    BaseNameOfDirectory(parent, directory);
    FileStemOfFile(dir, name);
  }

  // ---------------------------------------------------------------- sentence split

  predicate IsSentenceEnd(c: char) { c == '.' || c == '!' || c == '?' }

  /** Position `p` starts a match of `/(?<=[.!?])\s+/`. */
  predicate BreakAt(s: string, p: int)
  {
    1 <= p < |s| && IsSentenceEnd(s[p - 1]) && IsSpace(s[p])
  }

  /** The first break at or after `p`, or `|s|`. */
  function NextBreak(s: string, p: nat): (r: nat)
    requires 1 <= p <= |s|
    ensures p <= r <= |s|
    ensures r < |s| ==> BreakAt(s, r)
    ensures forall k :: p <= k < r ==> !BreakAt(s, k)
    decreases |s| - p
  {
    if p == |s| || BreakAt(s, p) then p else NextBreak(s, p + 1)
  }

  /**
   * `s.split(/(?<=[.!?])\s+/)`: cut after `.`, `!` or `?` where white space
   * follows, dropping the whole white-space run; a run at the end leaves a
   * final empty piece.
   */
  function SplitSentences(s: string): (r: seq<string>)
    ensures |r| >= 1
    decreases |s|
  {
    if |s| == 0 then [""]
    else
      var p := NextBreak(s, 1);
      if p == |s| then [s] else [s[..p]] + SplitSentences(TrimStart(s[p..]))
  }

  /** No piece contains a break, and every piece but the last ends a sentence. */
  predicate NoBreak(t: string) { forall q :: 0 <= q < |t| ==> !BreakAt(t, q) }

  predicate EndsSentence(t: string) { |t| > 0 && IsSentenceEnd(t[|t| - 1]) }

  predicate SentencePiecesOk(r: seq<string>)
  {
    (forall k :: 0 <= k < |r| ==> NoBreak(r[k]))
    && (forall k :: 0 <= k < |r| - 1 ==> EndsSentence(r[k]))
  }

  lemma PiecesOkCons(x: string, rest: seq<string>)
    requires NoBreak(x) && EndsSentence(x) && |rest| > 0 && SentencePiecesOk(rest)
    ensures SentencePiecesOk([x] + rest)
  {
    var r := [x] + rest;
    assert forall k :: 0 < k < |r| ==> r[k] == rest[k - 1];
  }

  lemma PrefixNoBreak(s: string, p: nat)
    requires 1 <= p <= |s|
    requires forall k :: 1 <= k < p ==> !BreakAt(s, k)
    ensures NoBreak(s[..p])
  {
    forall q | 0 <= q < p ensures !BreakAt(s[..p], q) {
      if BreakAt(s[..p], q) {
        assert BreakAt(s, q);
      }
    }
  }

  lemma SplitSentencesCons(s: string)
    requires |s| > 0 && NextBreak(s, 1) < |s|
    ensures SplitSentences(s) == [s[..NextBreak(s, 1)]] + SplitSentences(TrimStart(s[NextBreak(s, 1)..]))
  {
  }

  lemma PiecesStep(s: string, p: nat)
    requires |s| > 0 && p == NextBreak(s, 1) && p < |s| && NoBreak(s[..p])
    requires SentencePiecesOk(SplitSentences(TrimStart(s[p..])))
    ensures SentencePiecesOk(SplitSentences(s))
  {
    SplitSentencesCons(s);
    PiecesOkCons(s[..p], SplitSentences(TrimStart(s[p..])));
  }

  lemma {:induction false} SentencePieces(s: string)
    ensures SentencePiecesOk(SplitSentences(s))
    decreases |s|
  {
    if |s| > 0 {
      var p := NextBreak(s, 1);
      PrefixNoBreak(s, p);
      if p < |s| {
        SentencePieces(TrimStart(s[p..]));
        PiecesStep(s, p);
      } else {
        assert s[..p] == s;
      }
    }
  }

  /** Every break is one plain space followed by a non-space (or the end). */
  predicate SingleSpacedBreaks(s: string)
  {
    forall p :: 0 <= p < |s| && BreakAt(s, p) ==> s[p] == ' ' && (p + 1 == |s| || !IsSpace(s[p + 1]))
  }

  lemma TrimStartOneSpace(c: char, tail: string)
    requires IsSpace(c) && (|tail| == 0 || !IsSpace(tail[0]))
    ensures TrimStart([c] + tail) == tail
  {
    assert ([c] + tail)[1..] == tail;
  }

  lemma SingleSpacedSuffix(s: string, start: nat)
    requires SingleSpacedBreaks(s) && 1 <= start <= |s|
    ensures SingleSpacedBreaks(s[start..])
  {
    var tail := s[start..];
    forall q | 0 <= q < |tail| && BreakAt(tail, q) ensures tail[q] == ' ' && (q + 1 == |tail| || !IsSpace(tail[q + 1])) {
      assert tail[q - 1] == s[start + q - 1] && tail[q] == s[start + q];
      assert BreakAt(s, start + q);
      assert q + 1 < |tail| ==> tail[q + 1] == s[start + q + 1];
    }
  }

  lemma TrimAfterSpace(s: string, p: nat)
    requires p < |s| && IsSpace(s[p]) && (p + 1 == |s| || !IsSpace(s[p + 1]))
    ensures TrimStart(s[p..]) == s[p + 1..]
  {
    var tail := s[p + 1..];
    assert s[p..] == [s[p]] + tail;
    TrimStartOneSpace(s[p], tail);
  }

  /** With single-space breaks, joining the sentences with " " gives the text back. */
  lemma JoinAtSpace(s: string, p: nat, rest: seq<string>)
    requires 1 <= p < |s| && s[p] == ' '
    requires |rest| > 0 && Join(rest, " ") == s[p + 1..]
    ensures Join([s[..p]] + rest, " ") == s
  {
    JoinPrepend(s[..p], rest, " ");
  }

  lemma BreakIsSpace(s: string, p: nat)
    requires SingleSpacedBreaks(s) && p < |s| && BreakAt(s, p)
    ensures s[p] == ' ' && (p + 1 == |s| || !IsSpace(s[p + 1]))
  {
  }

  /** At a single-space break the rest of the split starts right after the space. */
  lemma SplitAtSpace(s: string, p: nat)
    requires |s| > 0 && p == NextBreak(s, 1) && p < |s|
    requires s[p] == ' ' && (p + 1 == |s| || !IsSpace(s[p + 1]))
    ensures SplitSentences(s) == [s[..p]] + SplitSentences(s[p + 1..])
  {
    SplitSentencesCons(s);
    TrimAfterSpace(s, p);
  }

  /** One step of the join: the first sentence, the space, and the rest joined back. */
  lemma JoinStep(s: string, p: nat)
    requires |s| > 0 && p == NextBreak(s, 1) && p < |s|
    requires s[p] == ' ' && (p + 1 == |s| || !IsSpace(s[p + 1]))
    requires Join(SplitSentences(s[p + 1..]), " ") == s[p + 1..]
    ensures Join(SplitSentences(s), " ") == s
  {
    SplitAtSpace(s, p);
    JoinAtSpace(s, p, SplitSentences(s[p + 1..]));
  }

  lemma {:induction false} SentencesJoin(s: string)
    requires SingleSpacedBreaks(s)
    ensures Join(SplitSentences(s), " ") == s
    decreases |s|
  {
    if |s| > 0 {
      var p := NextBreak(s, 1);
      if p < |s| {
        BreakIsSpace(s, p);
        SingleSpacedSuffix(s, p + 1);
        SentencesJoin(s[p + 1..]);
        JoinStep(s, p);
      }
    }
  }

  // ---------------------------------------------------------------- optimiser: specification

  /** A piece pushed onto the output (trimmed on the way), with the token count the optimiser tracked for it. */
  datatype Emit = Emit(piece: string, tokens: nat)

  /** The pushes so far, the piece being accumulated and its tracked count. */
  datatype Acc = Acc(out: seq<Emit>, cur: string, tokens: nat)

  const Start := Acc([], "", 0)

  /** The strings in `optimized`: every pushed piece, trimmed. */
  function Texts(es: seq<Emit>): (r: seq<string>)
    ensures |r| == |es|
  {
    seq(|es|, k requires 0 <= k < |es| => Trim(es[k].piece))
  }

  lemma TextsSnoc(es: seq<Emit>, e: Emit)
    ensures Texts(es + [e]) == Texts(es) + [Trim(e.piece)]
  {
    assert forall k :: 0 <= k < |es| ==> (es + [e])[k] == es[k];
  }

  /** Push the accumulation and start again empty. */
  function Push(a: Acc): Acc
  {
    Acc(a.out + [Emit(a.cur, a.tokens)], "", 0)
  }

  /** The in-target check: an accumulation in [480, 520] is pushed at once (when `flush` is on). */
  function Settle(b: Acc, flush: bool): Acc
  {
    if flush && InTarget(b.tokens) then Push(b) else b
  }

  /** Add one sentence, pushing first when it would overflow a substantial accumulation. */
  function AddSentence(a: Acc, sentence: string, count: string -> nat): Acc
  {
    var combined := count(a.cur + " " + sentence);
    if combined > TargetMax && a.tokens >= MinTokens then Acc(Push(a).out, sentence, count(sentence))
    else Acc(a.out, if a.cur != "" then a.cur + " " + sentence else sentence, combined)
  }

  /**
   * One sentence of an oversized piece. `flush` is the main loop's immediate
   * push of an in-target accumulation (the final split has none).
   */
  function SentenceStep(a: Acc, sentence: string, count: string -> nat, flush: bool): Acc
  {
    Settle(AddSentence(a, sentence, count), flush)
  }

  function Sentences(a: Acc, ss: seq<string>, count: string -> nat, flush: bool): Acc
    decreases |ss|
  {
    if |ss| == 0 then a
    else SentenceStep(Sentences(a, ss[..|ss| - 1], count, flush), ss[|ss| - 1], count, flush)
  }

  /** Push a substantial accumulation before an oversized piece. */
  function Release(a: Acc): Acc
  {
    if a.cur != "" && a.tokens >= MinTokens then Push(a) else a
  }

  /** An oversized piece: split by sentences; a non-empty remainder replaces the accumulation. */
  function Oversized(a: Acc, chunk: string, count: string -> nat): Acc
  {
    var a1 := Release(a);
    var t := Sentences(Acc(a1.out, "", 0), SplitSentences(chunk), count, true);
    if t.cur != "" && t.tokens > 0 then t else Acc(t.out, a1.cur, a1.tokens)
  }

  /** A piece that fits: start over when the merge would overflow, else merge with a blank line. */
  function Merge(a: Acc, chunk: string, count: string -> nat): Acc
  {
    var combined := count(a.cur + "\n\n" + chunk);
    if combined > TargetMax && a.tokens > 0 then
      Acc(if a.tokens >= MinTokens then Push(a).out else a.out, chunk, count(chunk))
    else if a.cur != "" then Acc(a.out, a.cur + "\n\n" + chunk, combined)
    else Acc(a.out, chunk, count(chunk))
  }

  /** One input piece of the main loop. */
  function ChunkStep(a: Acc, chunk: string, count: string -> nat): Acc
  {
    if count(chunk) > TargetMax then Oversized(a, chunk, count) else Settle(Merge(a, chunk, count), true)
  }

  function Chunks(a: Acc, cs: seq<string>, count: string -> nat): Acc
    decreases |cs|
  {
    if |cs| == 0 then a else ChunkStep(Chunks(a, cs[..|cs| - 1], count), cs[|cs| - 1], count)
  }

  lemma SentencesSnoc(a: Acc, ss: seq<string>, j: nat, count: string -> nat, flush: bool)
    requires j < |ss|
    ensures Sentences(a, ss[..j + 1], count, flush) == SentenceStep(Sentences(a, ss[..j], count, flush), ss[j], count, flush)
  {
    assert ss[..j + 1][..j] == ss[..j];
  }

  lemma ChunksSnoc(a: Acc, cs: seq<string>, i: nat, count: string -> nat)
    requires i < |cs|
    ensures Chunks(a, cs[..i + 1], count) == ChunkStep(Chunks(a, cs[..i], count), cs[i], count)
  {
    assert cs[..i + 1][..i] == cs[..i];
  }

  /** The last accumulation: pushed when substantial, split by sentences when oversized. */
  function Finish(a: Acc, count: string -> nat): seq<Emit>
  {
    if a.cur != "" && a.tokens >= MinTokens then
      if a.tokens > TargetMax then
        var t := Sentences(Acc(a.out, "", 0), SplitSentences(a.cur), count, false);
        if t.cur != "" && t.tokens >= MinTokens then Push(t).out else t.out
      else Push(a).out
    else a.out
  }

  function Optimize(textChunks: seq<string>, count: string -> nat): seq<Emit>
  {
    Finish(Chunks(Start, textChunks, count), count)
  }

  // ---------------------------------------------------------------- optimiser: properties

  predicate Substantial(es: seq<Emit>)
  {
    forall k :: 0 <= k < |es| ==> es[k].tokens >= MinTokens
  }

  lemma PushSubstantial(a: Acc)
    requires Substantial(a.out) && a.tokens >= MinTokens
    ensures Substantial(Push(a).out)
  {
    assert forall k :: 0 <= k < |a.out| ==> Push(a).out[k] == a.out[k];
  }

  lemma SettleSubstantial(b: Acc, flush: bool)
    requires Substantial(b.out)
    ensures Substantial(Settle(b, flush).out)
  {
    if flush && InTarget(b.tokens) {
      PushSubstantial(b);
    }
  }

  lemma AddSentenceSubstantial(a: Acc, sentence: string, count: string -> nat)
    requires Substantial(a.out)
    ensures Substantial(AddSentence(a, sentence, count).out)
  {
    if count(a.cur + " " + sentence) > TargetMax && a.tokens >= MinTokens {
      PushSubstantial(a);
    }
  }

  lemma {:induction false} SentencesSubstantial(a: Acc, ss: seq<string>, count: string -> nat, flush: bool)
    requires Substantial(a.out)
    ensures Substantial(Sentences(a, ss, count, flush).out)
    decreases |ss|
  {
    if |ss| > 0 {
      var b := Sentences(a, ss[..|ss| - 1], count, flush);
      SentencesSubstantial(a, ss[..|ss| - 1], count, flush);
      AddSentenceSubstantial(b, ss[|ss| - 1], count);
      SettleSubstantial(AddSentence(b, ss[|ss| - 1], count), flush);
    }
  }

  lemma ChunkStepSubstantial(a: Acc, chunk: string, count: string -> nat)
    requires Substantial(a.out)
    ensures Substantial(ChunkStep(a, chunk, count).out)
  {
    if count(chunk) > TargetMax {
      if a.cur != "" && a.tokens >= MinTokens {
        PushSubstantial(a);
      }
      var a1 := Release(a);
      SentencesSubstantial(Acc(a1.out, "", 0), SplitSentences(chunk), count, true);
    } else {
      if count(a.cur + "\n\n" + chunk) > TargetMax && a.tokens >= MinTokens {
        PushSubstantial(a);
      }
      SettleSubstantial(Merge(a, chunk, count), true);
    }
  }

  lemma {:induction false} ChunksSubstantial(a: Acc, cs: seq<string>, count: string -> nat)
    requires Substantial(a.out)
    ensures Substantial(Chunks(a, cs, count).out)
    decreases |cs|
  {
    if |cs| > 0 {
      ChunksSubstantial(a, cs[..|cs| - 1], count);
      ChunkStepSubstantial(Chunks(a, cs[..|cs| - 1], count), cs[|cs| - 1], count);
    }
  }

  /** Every pushed piece had a tracked count of at least 300 tokens when it was pushed. */
  lemma OptimizeSubstantial(textChunks: seq<string>, count: string -> nat)
    ensures forall k :: 0 <= k < |Optimize(textChunks, count)| ==> Optimize(textChunks, count)[k].tokens >= MinTokens
  {
    ChunksSubstantial(Start, textChunks, count);
    var a := Chunks(Start, textChunks, count);
    if a.cur != "" && a.tokens >= MinTokens {
      if a.tokens > TargetMax {
        var t := Sentences(Acc(a.out, "", 0), SplitSentences(a.cur), count, false);
        SentencesSubstantial(Acc(a.out, "", 0), SplitSentences(a.cur), count, false);
        if t.cur != "" && t.tokens >= MinTokens {
          PushSubstantial(t);
        }
      } else {
        PushSubstantial(a);
      }
    }
  }

  lemma {:induction false} SentencesNeverCarryTarget(a: Acc, ss: seq<string>, count: string -> nat)
    requires !InTarget(a.tokens)
    ensures !InTarget(Sentences(a, ss, count, true).tokens)
    decreases |ss|
  {
    if |ss| > 0 {
      SentencesNeverCarryTarget(a, ss[..|ss| - 1], count);
    }
  }

  /**
   * An accumulation whose tracked count reaches [480, 520] is pushed at once,
   * in the merge path and in the sentence split alike, so between input pieces
   * the carried count is never in the target range.
   */
  lemma {:induction false} ChunksNeverCarryTarget(cs: seq<string>, count: string -> nat)
    ensures !InTarget(Chunks(Start, cs, count).tokens)
    decreases |cs|
  {
    if |cs| > 0 {
      var b := Chunks(Start, cs[..|cs| - 1], count);
      ChunksNeverCarryTarget(cs[..|cs| - 1], count);
      var chunk := cs[|cs| - 1];
      if count(chunk) > TargetMax {
        SentencesNeverCarryTarget(Acc(Release(b).out, "", 0), SplitSentences(chunk), count);
      }
    }
  }

  /** Input pieces that are each already in range are pushed one by one. */
  lemma {:induction false} ChunksInTarget(cs: seq<string>, count: string -> nat)
    requires forall k :: 0 <= k < |cs| ==> InTarget(count(cs[k]))
    ensures var a := Chunks(Start, cs, count);
      a.cur == "" && a.tokens == 0 && |a.out| == |cs|
      && forall k :: 0 <= k < |cs| ==> a.out[k] == Emit(cs[k], count(cs[k]))
    decreases |cs|
  {
    if |cs| > 0 {
      var init := cs[..|cs| - 1];
      ChunksInTarget(init, count);
      var b := Chunks(Start, init, count);
      var chunk := cs[|cs| - 1];
      assert Merge(b, chunk, count) == Acc(b.out, chunk, count(chunk));
      var a := Chunks(Start, cs, count);
      assert a.out == b.out + [Emit(chunk, count(chunk))];
      assert forall k :: 0 <= k < |init| ==> a.out[k] == b.out[k] && init[k] == cs[k];
    }
  }

  /** ... and each comes out trimmed, in order. */
  lemma OptimizeInTarget(cs: seq<string>, count: string -> nat)
    requires forall k :: 0 <= k < |cs| ==> InTarget(count(cs[k]))
    ensures Texts(Optimize(cs, count)) == seq(|cs|, k requires 0 <= k < |cs| => Trim(cs[k]))
  {
    ChunksInTarget(cs, count);
  }

  /** A document that is one short piece produces no chunk at all. */
  lemma ShortDocumentDropped(chunk: string, count: string -> nat)
    requires count(chunk) < MinTokens
    ensures Optimize([chunk], count) == []
  {
    assert [chunk][..0] == [];
    assert Chunks(Start, [chunk], count) == Acc([], chunk, count(chunk));
  }

  // ---------------------------------------------------------------- optimiser: the loops

  /** The sentence loop over an oversized piece, appending to `optimized`. */
  method SplitLarge(text: string, count: string -> nat, flush: bool,
                    optimized: seq<string>, ghost emitted: seq<Emit>)
    returns (result: seq<string>, tempChunk: string, tempTokens: nat, ghost resultEmitted: seq<Emit>)
    requires optimized == Texts(emitted)
    ensures Acc(resultEmitted, tempChunk, tempTokens) == Sentences(Acc(emitted, "", 0), SplitSentences(text), count, flush)
    ensures result == Texts(resultEmitted)
  {
    var sentences := SplitSentences(text);
    result, resultEmitted := optimized, emitted;
    tempChunk, tempTokens := "", 0;
    var j := 0;
    while j < |sentences|
      invariant 0 <= j <= |sentences|
      invariant Acc(resultEmitted, tempChunk, tempTokens) == Sentences(Acc(emitted, "", 0), sentences[..j], count, flush)
      invariant result == Texts(resultEmitted)
    {
      ghost var before := Acc(resultEmitted, tempChunk, tempTokens);
      var sentence := sentences[j];
      var sentenceTokens := count(sentence);
      var combinedTokens := count(tempChunk + " " + sentence);
      if combinedTokens > TargetMax && tempTokens >= MinTokens {
        TextsSnoc(resultEmitted, Emit(tempChunk, tempTokens));
        result := result + [Trim(tempChunk)];
        resultEmitted := resultEmitted + [Emit(tempChunk, tempTokens)];
        tempChunk := sentence;
        tempTokens := sentenceTokens;
      } else {
        tempChunk := if tempChunk != "" then tempChunk + " " + sentence else sentence;
        tempTokens := combinedTokens;
      }
      assert Acc(resultEmitted, tempChunk, tempTokens) == AddSentence(before, sentence, count);
      if flush && InTarget(tempTokens) {
        TextsSnoc(resultEmitted, Emit(tempChunk, tempTokens));
        result := result + [Trim(tempChunk)];
        resultEmitted := resultEmitted + [Emit(tempChunk, tempTokens)];
        tempChunk := "";
        tempTokens := 0;
      }
      assert Acc(resultEmitted, tempChunk, tempTokens) == SentenceStep(before, sentence, count, flush);
      SentencesSnoc(Acc(emitted, "", 0), sentences, j, count, flush);
      j := j + 1;
    }
    assert sentences[..j] == sentences;
  }

  /** The body of the main loop: one input piece against the running accumulation. */
  method ProcessChunk(chunk: string, count: string -> nat,
                      optimized: seq<string>, currentChunk: string, currentTokens: nat, ghost emitted: seq<Emit>)
    returns (newOptimized: seq<string>, newChunk: string, newTokens: nat, ghost newEmitted: seq<Emit>)
    requires optimized == Texts(emitted)
    ensures Acc(newEmitted, newChunk, newTokens) == ChunkStep(Acc(emitted, currentChunk, currentTokens), chunk, count)
    ensures newOptimized == Texts(newEmitted)
  {
    ghost var before := Acc(emitted, currentChunk, currentTokens);
    newOptimized, newChunk, newTokens, newEmitted := optimized, currentChunk, currentTokens, emitted;
    var chunkTokens := count(chunk);
    if chunkTokens > TargetMax {
      if newChunk != "" && newTokens >= MinTokens {
        TextsSnoc(newEmitted, Emit(newChunk, newTokens));
        newOptimized := newOptimized + [Trim(newChunk)];
        newEmitted := newEmitted + [Emit(newChunk, newTokens)];
        newChunk := "";
        newTokens := 0;
      }
      assert Acc(newEmitted, newChunk, newTokens) == Release(before);
      var tempChunk, tempTokens;
      newOptimized, tempChunk, tempTokens, newEmitted := SplitLarge(chunk, count, true, newOptimized, newEmitted);
      if tempChunk != "" && tempTokens > 0 {
        newChunk := tempChunk;
        newTokens := tempTokens;
      }
    } else {
      var combinedTokens := count(newChunk + "\n\n" + chunk);
      if combinedTokens > TargetMax && newTokens > 0 {
        if newTokens >= MinTokens {
          TextsSnoc(newEmitted, Emit(newChunk, newTokens));
          newOptimized := newOptimized + [Trim(newChunk)];
          newEmitted := newEmitted + [Emit(newChunk, newTokens)];
        }
        newChunk := chunk;
        newTokens := chunkTokens;
      } else if newChunk != "" {
        newChunk := newChunk + "\n\n" + chunk;
        newTokens := combinedTokens;
      } else {
        newChunk := chunk;
        newTokens := chunkTokens;
      }
      assert Acc(newEmitted, newChunk, newTokens) == Merge(before, chunk, count);
      if InTarget(newTokens) {
        TextsSnoc(newEmitted, Emit(newChunk, newTokens));
        newOptimized := newOptimized + [Trim(newChunk)];
        newEmitted := newEmitted + [Emit(newChunk, newTokens)];
        newChunk := "";
        newTokens := 0;
      }
    }
  }

  /** `optimizeChunks`: merge small pieces, split large ones, push pieces near 500 tokens. */
  method OptimizeChunks(textChunks: seq<string>, count: string -> nat) returns (optimized: seq<string>)
    ensures optimized == Texts(Optimize(textChunks, count))
  {
    optimized := [];
    ghost var emitted: seq<Emit> := [];
    var currentChunk := "";
    var currentTokens: nat := 0;
    var i := 0;
    while i < |textChunks|
      invariant 0 <= i <= |textChunks|
      invariant Acc(emitted, currentChunk, currentTokens) == Chunks(Start, textChunks[..i], count)
      invariant optimized == Texts(emitted)
    {
      ChunksSnoc(Start, textChunks, i, count);
      optimized, currentChunk, currentTokens, emitted :=
        ProcessChunk(textChunks[i], count, optimized, currentChunk, currentTokens, emitted);
      i := i + 1;
    }
    assert textChunks[..i] == textChunks;
    ghost var last := Acc(emitted, currentChunk, currentTokens);
    if currentChunk != "" && currentTokens >= MinTokens {
      if currentTokens > TargetMax {
        var tempChunk, tempTokens;
        optimized, tempChunk, tempTokens, emitted := SplitLarge(currentChunk, count, false, optimized, emitted);
        if tempChunk != "" && tempTokens >= MinTokens {
          TextsSnoc(emitted, Emit(tempChunk, tempTokens));
          optimized := optimized + [Trim(tempChunk)];
          emitted := emitted + [Emit(tempChunk, tempTokens)];
        }
      } else {
        TextsSnoc(emitted, Emit(currentChunk, currentTokens));
        optimized := optimized + [Trim(currentChunk)];
        emitted := emitted + [Emit(currentChunk, currentTokens)];
      }
    }
    assert emitted == Finish(last, count);
  }

  // ---------------------------------------------------------------- chunkDocument

  /** The metadata fields a chunk copies. */
  datatype DocumentMetadata = DocumentMetadata(title: string, industry: string)

  datatype DocumentChunk = DocumentChunk(
    chunkId: string, docId: string, text: string, tokenCount: nat,
    industry: string, sourceUrl: string, title: string, chunkIndex: nat)

  const SourceScheme: string := "smec-ai-kb://"

  /**
   * Split, optimise, and number the pieces of one document. The optimiser's
   * pieces are already trimmed, so the stored text is the piece itself and its
   * token count is the count of that text.
   */
  method ChunkDocument(filePath: string, content: string, metadata: DocumentMetadata,
                       splitText: string -> seq<string>, count: string -> nat)
    returns (chunks: seq<DocumentChunk>)
    ensures var pieces := Texts(Optimize(splitText(content), count));
      |chunks| == |pieces|
      && forall k :: 0 <= k < |chunks| ==>
        chunks[k].chunkIndex == k && chunks[k].chunkId == GenerateChunkId(ExtractDocId(filePath), k)
        && chunks[k].docId == ExtractDocId(filePath) && chunks[k].text == pieces[k]
        && chunks[k].tokenCount == count(pieces[k]) && chunks[k].industry == metadata.industry
        && chunks[k].title == metadata.title && chunks[k].sourceUrl == SourceScheme + filePath
    ensures forall j, k :: 0 <= j < k < |chunks| ==> chunks[j].chunkId != chunks[k].chunkId
  {
    var docId := ExtractDocId(filePath);
    var textChunks := splitText(content);
    var optimizedChunks := OptimizeChunks(textChunks, count);
    chunks := seq(|optimizedChunks|, k requires 0 <= k < |optimizedChunks| =>
      DocumentChunk(GenerateChunkId(docId, k), docId, Trim(optimizedChunks[k]), count(optimizedChunks[k]),
                    metadata.industry, SourceScheme + filePath, metadata.title, k));
    ghost var es := Optimize(textChunks, count);
    forall k | 0 <= k < |chunks| ensures chunks[k].text == optimizedChunks[k] {
      TrimIdempotent(es[k].piece);
    }
    forall j, k | 0 <= j < k < |chunks| ensures chunks[j].chunkId != chunks[k].chunkId {
      ChunkIdsDistinct(docId, j, k);
    }
  }

  // ---------------------------------------------------------------- statistics

  /** `tokenCounts.filter(t => t >= 480 && t <= 520).length`. */
  function CountInTarget(ts: seq<int>): (r: nat)
    ensures r <= |ts|
  {
    if |ts| == 0 then 0 else CountInTarget(ts[..|ts| - 1]) + (if InTarget(ts[|ts| - 1]) then 1 else 0)
  }

  /** Every count is in range exactly when all of them are counted. */
  lemma {:induction false} CountInTargetAll(ts: seq<int>)
    ensures CountInTarget(ts) == |ts| <==> forall k :: 0 <= k < |ts| ==> InTarget(ts[k])
  {
    if |ts| > 0 {
      CountInTargetAll(ts[..|ts| - 1]);
      assert forall k :: 0 <= k < |ts| - 1 ==> ts[..|ts| - 1][k] == ts[k];
    }
  }

  /** `tokenCounts.every(t => t <= 520)`. */
  predicate NoOversized(ts: seq<int>)
  {
    forall k :: 0 <= k < |ts| ==> ts[k] <= TargetMax
  }

  /** `Math.min(...ts)` of a non-empty list. */
  function MinOf(ts: seq<int>): (r: int)
    requires |ts| > 0
    ensures r in ts && forall k :: 0 <= k < |ts| ==> r <= ts[k]
  {
    if |ts| == 1 then ts[0]
    else
      var m := MinOf(ts[..|ts| - 1]);
      assert forall k :: 0 <= k < |ts| - 1 ==> ts[..|ts| - 1][k] == ts[k];
      if ts[|ts| - 1] < m then ts[|ts| - 1] else m
  }

  /** `Math.max(...ts)` of a non-empty list. */
  function MaxOf(ts: seq<int>): (r: int)
    requires |ts| > 0
    ensures r in ts && forall k :: 0 <= k < |ts| ==> ts[k] <= r
  {
    if |ts| == 1 then ts[0]
    else
      var m := MaxOf(ts[..|ts| - 1]);
      assert forall k :: 0 <= k < |ts| - 1 ==> ts[..|ts| - 1][k] == ts[k];
      if ts[|ts| - 1] > m then ts[|ts| - 1] else m
  }

  lemma NoOversizedMax(ts: seq<int>)
    requires |ts| > 0
    ensures NoOversized(ts) <==> MaxOf(ts) <= TargetMax
  {
    var m := MaxOf(ts);
    var k :| 0 <= k < |ts| && ts[k] == m;
  }

  /** All-in-range counts have no oversized chunk. */
  lemma InTargetNotOversized(ts: seq<int>)
    requires CountInTarget(ts) == |ts|
    ensures NoOversized(ts)
  {
    CountInTargetAll(ts);
  }

  /** `Math.round(n / 2)`: halves round up. */
  function RoundHalf(n: int): (r: int)
    ensures 2 * r == n || 2 * r == n + 1
  {
    (n + 1) / 2
  }

  /** The key that makes Sorting's descending sort an ascending numeric sort. */
  function Negated(x: int): real { -(x as real) }

  /** `[...numbers].sort((a, b) => a - b)`. */
  function Ascending(xs: seq<int>): (r: seq<int>)
    ensures |r| == |xs| && multiset(r) == multiset(xs)
    ensures forall i, j :: 0 <= i < j < |r| ==> r[i] <= r[j]
  {
    Sorting.SortDescProperties(xs, Negated);
    var r := Sorting.SortDesc(xs, Negated);
    assert forall i, j :: 0 <= i < j < |r| ==> Negated(r[i]) >= Negated(r[j]);
    r
  }

  /** `calculateMedian`; an empty list gives NaN, here `None`. */
  function Median(numbers: seq<int>): Option<int>
  {
    if |numbers| == 0 then None
    else
      var sorted := Ascending(numbers);
      var mid := |sorted| / 2;
      if |sorted| % 2 == 0 then Some(RoundHalf(sorted[mid - 1] + sorted[mid])) else Some(sorted[mid])
  }

  /** The median of a non-empty list lies between its minimum and maximum; an odd-length median is an element. */
  lemma MedianBounds(numbers: seq<int>)
    ensures Median(numbers).None? <==> |numbers| == 0
    ensures |numbers| > 0 ==> MinOf(numbers) <= Median(numbers).value <= MaxOf(numbers)
    ensures |numbers| % 2 == 1 ==> Median(numbers).value in numbers
  {
    if |numbers| > 0 {
      var sorted := Ascending(numbers);
      var mid := |sorted| / 2;
      assert sorted[mid] in multiset(numbers);
      if |sorted| % 2 == 0 {
        assert sorted[mid - 1] in multiset(numbers);
        assert sorted[mid - 1] <= sorted[mid];
      }
    }
  }

  /** Two ascending lists with the same elements are equal. */
  lemma {:induction false} AscendingUnique(a: seq<int>, b: seq<int>)
    requires multiset(a) == multiset(b)
    requires forall i, j :: 0 <= i < j < |a| ==> a[i] <= a[j]
    requires forall i, j :: 0 <= i < j < |b| ==> b[i] <= b[j]
    ensures a == b
    decreases |a|
  {
    assert |a| == |multiset(a)| == |multiset(b)| == |b|;
    if |a| > 0 {
      assert a[0] in multiset(a) && b[0] in multiset(b);
      HeadIsLeast(a, b[0]);
      HeadIsLeast(b, a[0]);
      assert a[0] == b[0];
      TailMultiset(a);
      TailMultiset(b);
      AscendingUnique(a[1..], b[1..]);
    }
  }

  lemma TailMultiset(a: seq<int>)
    requires |a| > 0
    ensures multiset(a[1..]) == multiset(a) - multiset{a[0]}
  {
    assert a == [a[0]] + a[1..];
  }

  lemma HeadIsLeast(a: seq<int>, x: int)
    requires forall i, j :: 0 <= i < j < |a| ==> a[i] <= a[j]
    requires x in multiset(a)
    ensures a[0] <= x
  {
    var k :| 0 <= k < |a| && a[k] == x;
    if k > 0 {
      assert a[0] <= a[k];
    }
  }

  /** The median depends only on the numbers, not on their order. */
  lemma MedianOrderFree(a: seq<int>, b: seq<int>)
    requires multiset(a) == multiset(b)
    ensures Median(a) == Median(b)
  {
    AscendingUnique(Ascending(a), Ascending(b));
    assert |a| == |multiset(a)| == |multiset(b)| == |b|;
  }
}
