/** Python `str` operations used by the modelled scripts, on `seq<char>`.
    Each function follows the CPython behaviour of the method it is named after;
    the lemmas give the facts the other modules rely on. */
module Text {
  import opened Wrappers

  /** `c.isspace()`: the characters CPython treats as whitespace, which are also
      the characters the regular expression `\s` matches in a `str` pattern. */
  predicate IsSpace(c: char)
  {
    c == ' ' || ('\t' <= c <= '\r') || ('\U{1c}' <= c <= '\U{1f}')
    || c == '\U{85}' || c == '\U{a0}' || c == '\U{1680}' || ('\U{2000}' <= c <= '\U{200a}')
    || c == '\U{2028}' || c == '\U{2029}' || c == '\U{202f}' || c == '\U{205f}' || c == '\U{3000}'
  }

  predicate AllSpace(s: string)
  {
    forall i :: 0 <= i < |s| ==> IsSpace(s[i])
  }

  /** `s.startswith(p)` */
  predicate StartsWith(s: string, p: string)
  {
    |p| <= |s| && s[..|p|] == p
  }

  /** `sub` occurs in `s` starting at index `i`. */
  predicate OccursAt(s: string, sub: string, i: int)
  {
    0 <= i && i + |sub| <= |s| && s[i..i + |sub|] == sub
  }

  /** `s.find(sub, from)` as an option: the least index at or after `from` where `sub` occurs. */
  function FindFrom(s: string, sub: string, from: nat): (r: Option<nat>)
    decreases |s| - from
    ensures r.Some? ==> from <= r.value && OccursAt(s, sub, r.value)
    ensures r.Some? ==> forall j :: from <= j < r.value ==> !OccursAt(s, sub, j)
    ensures r.None? ==> forall j :: from <= j ==> !OccursAt(s, sub, j)
  {
    if from + |sub| > |s| then None
    else if s[from..from + |sub|] == sub then Some(from)
    else FindFrom(s, sub, from + 1)
  }

  /** An occurrence with none before it, from `from` on, is what `find` returns. */
  lemma FindFromFirst(s: string, sub: string, from: nat, e: nat)
    requires from <= e && OccursAt(s, sub, e)
    requires forall j :: from <= j < e ==> !OccursAt(s, sub, j)
    ensures FindFrom(s, sub, from) == Some(e)
  {
  }

  /** `s.find(sub)` as an option. */
  function Find(s: string, sub: string): (r: Option<nat>)
    ensures r.Some? ==> OccursAt(s, sub, r.value) && forall j :: 0 <= j < r.value ==> !OccursAt(s, sub, j)
    ensures r.None? <==> forall j :: !OccursAt(s, sub, j)
  {
    FindFrom(s, sub, 0)
  }

  /** `sub in s` */
  predicate Contains(s: string, sub: string)
  {
    Find(s, sub).Some?
  }

  /** `s.replace(pat, repl, 1)`: the first occurrence of `pat` is replaced. */
  function ReplaceFirst(s: string, pat: string, repl: string): (r: string)
    ensures Find(s, pat).None? ==> r == s
    ensures Find(s, pat).Some? ==>
      var i := Find(s, pat).value; r == s[..i] + repl + s[i + |pat|..]
  {
    match Find(s, pat)
    case None => s
    case Some(i) => s[..i] + repl + s[i + |pat|..]
  }

  /** `s.replace(pat, repl)`: every non-overlapping occurrence, left to right;
      an empty `pat` inserts `repl` before every character and at the end. */
  function ReplaceAll(s: string, pat: string, repl: string): string
    decreases |s|
  {
    if pat == [] then InterleaveEmpty(s, repl)
    else match Find(s, pat)
      case None => s
      case Some(i) => s[..i] + repl + ReplaceAll(s[i + |pat|..], pat, repl)
  }

  function InterleaveEmpty(s: string, repl: string): string
  {
    if s == [] then repl else repl + [s[0]] + InterleaveEmpty(s[1..], repl)
  }

  /** Replacing a substring by itself changes nothing, also for the empty pattern. */
  lemma {:induction false} ReplaceAllSame(s: string, pat: string)
    ensures ReplaceAll(s, pat, pat) == s
    decreases |s|
  {
    if pat == [] {
      InterleaveEmptyNothing(s);
    } else {
      var f := Find(s, pat);
      if f.Some? {
        var i := f.value;
        ReplaceAllSame(s[i + |pat|..], pat);
        SplitAtOccurrence(s, pat, i);
      }
    }
  }

  /** `s.split(pat)` for a non-empty `pat`: the pieces between the
      leftmost non-overlapping occurrences. */
  function SplitOn(s: string, pat: string): (parts: seq<string>)
    requires pat != []
    ensures |parts| >= 1
    decreases |s|
  {
    match Find(s, pat)
    case None => [s]
    case Some(i) => [s[..i]] + SplitOn(s[i + |pat|..], pat)
  }

  /** No piece holds the pattern. */
  lemma {:induction false} PiecesFree(s: string, pat: string)
    requires pat != []
    ensures forall k :: 0 <= k < |SplitOn(s, pat)| ==> !Contains(SplitOn(s, pat)[k], pat)
    decreases |s|
  {
    var f := Find(s, pat);
    if f.Some? {
      var i := f.value;
      var rest := s[i + |pat|..];
      PiecesFree(rest, pat);
      BeforeFirstOccurrence(s, pat, i);
      var parts := SplitOn(s, pat);
      assert parts == [s[..i]] + SplitOn(rest, pat);
      forall k | 0 <= k < |parts|
        ensures !Contains(parts[k], pat)
      {
        if k > 0 {
          assert parts[k] == SplitOn(rest, pat)[k - 1];
        }
      }
    }
  }

  /** No occurrence lies wholly before the leftmost one. */
  lemma BeforeFirstOccurrence(s: string, pat: string, i: nat)
    requires pat != [] && Find(s, pat) == Some(i)
    ensures !Contains(s[..i], pat)
  {
    if Contains(s[..i], pat) {
      var j := Find(s[..i], pat).value;
      assert s[..i][j..j + |pat|] == s[j..j + |pat|];
      assert OccursAt(s, pat, j);
      assert false;
    }
  }

  /** Joining the pieces with the pattern gives the string back. */
  lemma {:induction false} JoinSplitOn(s: string, pat: string)
    requires pat != []
    ensures Join(SplitOn(s, pat), pat) == s
    decreases |s|
  {
    var f := Find(s, pat);
    if f.Some? {
      var i := f.value;
      var rest := s[i + |pat|..];
      var tail := SplitOn(rest, pat);
      JoinSplitOn(rest, pat);
      JoinCons(s[..i], tail, pat);
      SplitAtOccurrence(s, pat, i);
    }
  }

  lemma JoinCons(head: string, tail: seq<string>, sep: string)
    requires tail != []
    ensures Join([head] + tail, sep) == head + sep + Join(tail, sep)
  {
    assert ([head] + tail)[1..] == tail;
  }

  /** Replacing every occurrence is joining the pieces with the replacement. */
  lemma {:induction false} ReplaceAllJoinsPieces(s: string, pat: string, repl: string)
    requires pat != []
    ensures ReplaceAll(s, pat, repl) == Join(SplitOn(s, pat), repl)
    decreases |s|
  {
    var f := Find(s, pat);
    if f.Some? {
      var i := f.value;
      var rest := s[i + |pat|..];
      SplitOnAt(s, pat, i);
      ReplaceAllJoinsPieces(rest, pat, repl);
      JoinCons(s[..i], SplitOn(rest, pat), repl);
    } else {
      NoPieces(s, pat, repl);
    }
  }

  /** At the leftmost occurrence `split` takes the text before it and goes
      on after it. */
  lemma {:induction false} SplitOnAt(s: string, pat: string, i: nat)
    requires pat != [] && Find(s, pat) == Some(i)
    ensures SplitOn(s, pat) == [s[..i]] + SplitOn(s[i + |pat|..], pat)
  {
  }

  lemma NoPieces(s: string, pat: string, repl: string)
    requires pat != [] && Find(s, pat).None?
    ensures ReplaceAll(s, pat, repl) == s && SplitOn(s, pat) == [s]
  {
  }

  /** A string is the text before an occurrence, the occurrence and the text after it. */
  lemma SplitAtOccurrence(s: string, pat: string, i: int)
    requires OccursAt(s, pat, i)
    ensures s[..i] + pat + s[i + |pat|..] == s
  {
    assert s == s[..i] + s[i..i + |pat|] + s[i + |pat|..];
  }

  lemma {:induction false} InterleaveEmptyNothing(s: string)
    ensures InterleaveEmpty(s, "") == s
  {
    if s != [] {
      InterleaveEmptyNothing(s[1..]);
      assert [s[0]] + s[1..] == s;
    }
  }

  /** A pattern that does not occur leaves `s` unchanged. */
  lemma ReplaceAllAbsent(s: string, pat: string, repl: string)
    requires !Contains(s, pat)
    ensures ReplaceAll(s, pat, repl) == s
  {
    assert OccursAt(s, [], 0);
    assert pat != [];
  }

  /** `s.lstrip()` */
  function TrimLeft(s: string): string
  {
    if s != [] && IsSpace(s[0]) then TrimLeft(s[1..]) else s
  }

  /** `lstrip()` removes a whitespace prefix and leaves a non-space first. */
  lemma {:induction false} TrimLeftShape(s: string)
    ensures |TrimLeft(s)| <= |s| && TrimLeft(s) == s[|s| - |TrimLeft(s)|..]
    ensures TrimLeft(s) == [] || !IsSpace(TrimLeft(s)[0])
    ensures AllSpace(s[..|s| - |TrimLeft(s)|])
  {
    if s != [] && IsSpace(s[0]) {
      TrimLeftShape(s[1..]);
      var d := |s[1..]| - |TrimLeft(s[1..])|;
      assert s[1..][d..] == s[d + 1..];
      var pre, rest := s[..d + 1], s[1..][..d];
      forall i | 0 <= i < |pre|
        ensures IsSpace(pre[i])
      {
        if i > 0 {
          assert pre[i] == rest[i - 1];
        }
      }
    }
  }

  /** `s.rstrip()` */
  function TrimRight(s: string): string
  {
    if s != [] && IsSpace(s[|s| - 1]) then TrimRight(s[..|s| - 1]) else s
  }

  /** `rstrip()` removes a whitespace suffix and leaves a non-space last. */
  lemma {:induction false} TrimRightShape(s: string)
    ensures |TrimRight(s)| <= |s| && TrimRight(s) == s[..|TrimRight(s)|]
    ensures TrimRight(s) == [] || !IsSpace(TrimRight(s)[|TrimRight(s)| - 1])
    ensures AllSpace(s[|TrimRight(s)|..])
  {
    if s != [] && IsSpace(s[|s| - 1]) {
      var p := s[..|s| - 1];
      TrimRightShape(p);
      var n := |TrimRight(p)|;
      assert p[..n] == s[..n];
      assert forall i :: 0 <= i < |s| - n - 1 ==> s[n..][i] == p[n..][i];
    }
  }

  /** `s.strip()` */
  function Strip(s: string): string
  {
    TrimRight(TrimLeft(s))
  }

  /** `s.strip()` is empty exactly when `s` is all whitespace. */
  lemma StripEmpty(s: string)
    ensures Strip(s) == [] <==> AllSpace(s)
  {
    TrimLeftShape(s);
    TrimRightShape(TrimLeft(s));
  }

  /** An occurrence is found by `find`, so `sub in s`. */
  lemma OccursContains(s: string, sub: string, i: int)
    requires OccursAt(s, sub, i)
    ensures Contains(s, sub)
  {
  }

  /** An occurrence survives appending text after it. */
  lemma OccursAppend(s: string, t: string, sub: string, i: int)
    requires OccursAt(s, sub, i)
    ensures OccursAt(s + t, sub, i)
  {
    assert (s + t)[i..i + |sub|] == s[i..i + |sub|];
  }

  /** `strip()` keeps an occurrence whose first and last characters are not
      whitespace. */
  lemma StripKeepsOccurrence(s: string, sub: string, i: int)
    requires OccursAt(s, sub, i) && sub != []
    requires !IsSpace(sub[0]) && !IsSpace(sub[|sub| - 1])
    ensures Contains(Strip(s), sub)
  {
    var j := TrimLeftKeeps(s, sub, i);
    TrimRightKeeps(TrimLeft(s), sub, j);
    OccursContains(Strip(s), sub, j);
  }

  /** Leading whitespace ends before an occurrence that starts with a non-space. */
  lemma TrimLeftKeeps(s: string, sub: string, i: int) returns (j: int)
    requires OccursAt(s, sub, i) && sub != [] && !IsSpace(sub[0])
    ensures OccursAt(TrimLeft(s), sub, j)
  {
    TrimLeftShape(s);
    var t := TrimLeft(s);
    var d := |s| - |t|;
    assert s[i] == sub[0];
    assert d <= i;
    j := i - d;
    assert t[j..j + |sub|] == s[i..i + |sub|];
  }

  /** Trailing whitespace starts after an occurrence that ends with a non-space. */
  lemma TrimRightKeeps(t: string, sub: string, j: int)
    requires OccursAt(t, sub, j) && sub != [] && !IsSpace(sub[|sub| - 1])
    ensures OccursAt(TrimRight(t), sub, j)
  {
    TrimRightShape(t);
    var r := TrimRight(t);
    var last := j + |sub| - 1;
    assert t[last] == sub[|sub| - 1];
    assert last < |r|;
    assert r[j..j + |sub|] == t[j..j + |sub|];
  }

  /** `strip()` ignores whitespace appended at the end. */
  lemma StripAppendSpace(s: string, w: string)
    requires AllSpace(w)
    ensures Strip(s + w) == Strip(s)
  {
    TrimLeftAppend(s, w);
    if TrimLeft(s) == [] {
      TrimLeftAllSpace(w);
    } else {
      TrimRightAppendSpace(TrimLeft(s), w);
    }
  }

  lemma {:induction false} TrimLeftAppend(s: string, w: string)
    ensures TrimLeft(s + w) == if TrimLeft(s) == [] then TrimLeft(w) else TrimLeft(s) + w
  {
    if s == [] {
      assert s + w == w;
    } else if IsSpace(s[0]) {
      assert (s + w)[1..] == s[1..] + w;
      TrimLeftAppend(s[1..], w);
    }
  }

  lemma {:induction false} TrimLeftAllSpace(w: string)
    requires AllSpace(w)
    ensures TrimLeft(w) == []
  {
    if w != [] {
      TrimLeftAllSpace(w[1..]);
    }
  }

  lemma {:induction false} TrimRightAppendSpace(s: string, w: string)
    requires AllSpace(w)
    ensures TrimRight(s + w) == TrimRight(s)
    decreases |w|
  {
    if w != [] {
      var w' := w[..|w| - 1];
      assert (s + w)[..|s + w| - 1] == s + w';
      TrimRightAppendSpace(s, w');
    } else {
      assert s + w == s;
    }
  }

  /** `s.split(sep)` for a one-character separator: always at least one part. */
  function Split(s: string, sep: char): (parts: seq<string>)
    ensures |parts| >= 1
    ensures forall p :: p in parts ==> sep !in p
  {
    if s == [] then [""]
    else
      var rest := Split(s[1..], sep);
      if s[0] == sep then [""] + rest
      else [[s[0]] + rest[0]] + rest[1..]
  }

  /** `sep.join(parts)` */
  function Join(parts: seq<string>, sep: string): string
  {
    if |parts| == 0 then ""
    else if |parts| == 1 then parts[0]
    else parts[0] + sep + Join(parts[1..], sep)
  }

  /** Joining one more part at the end. */
  lemma {:induction false} JoinSnoc(parts: seq<string>, p: string, sep: string)
    requires parts != []
    ensures Join(parts + [p], sep) == Join(parts, sep) + sep + p
    decreases |parts|
  {
    if |parts| > 1 {
      assert (parts + [p])[1..] == parts[1..] + [p];
      JoinSnoc(parts[1..], p, sep);
    } else {
      assert parts + [p] == [parts[0], p];
      assert [parts[0], p][1..] == [p];
    }
  }

  lemma {:induction false} JoinSplit(s: string, sep: char)
    ensures Join(Split(s, sep), [sep]) == s
  {
    if s != [] {
      JoinSplit(s[1..], sep);
      var rest := Split(s[1..], sep);
      if s[0] == sep {
        assert Join([""] + rest, [sep]) == [sep] + Join(rest, [sep]);
      } else {
        var parts := [[s[0]] + rest[0]] + rest[1..];
        if |rest| == 1 {
          assert Join(parts, [sep]) == [s[0]] + rest[0];
        } else {
          assert rest == [rest[0]] + rest[1..];
          assert Join(rest, [sep]) == rest[0] + [sep] + Join(rest[1..], [sep]);
          assert parts[1..] == rest[1..];
        }
      }
    }
  }

  lemma {:induction false} SplitJoin(parts: seq<string>, sep: char)
    requires |parts| >= 1
    requires forall p :: p in parts ==> sep !in p
    ensures Split(Join(parts, [sep]), sep) == parts
    decreases |parts|, |parts[0]|
  {
    var p := parts[0];
    if p == [] {
      if |parts| > 1 {
        SplitJoin(parts[1..], sep);
        assert Join(parts, [sep]) == [sep] + Join(parts[1..], [sep]);
        assert ([sep] + Join(parts[1..], [sep]))[1..] == Join(parts[1..], [sep]);
      }
    } else {
      var parts' := [p[1..]] + parts[1..];
      assert p in parts && p[0] in p;
      assert forall q :: q in parts[1..] ==> q in parts;
      SplitJoin(parts', sep);
      var j := Join(parts, [sep]);
      if |parts| > 1 {
        assert j == p + [sep] + Join(parts[1..], [sep]);
        assert Join(parts', [sep]) == p[1..] + [sep] + Join(parts[1..], [sep]);
      } else {
        assert j == p;
      }
      assert j[0] == p[0];
      assert j[1..] == Join(parts', [sep]);
      assert parts'[1..] == parts[1..];
      assert [p[0]] + p[1..] == p;
    }
  }

  /** `s.split()`: the maximal runs of non-whitespace characters. */
  function Words(s: string): (w: seq<string>)
    ensures s != [] && !IsSpace(s[0]) ==> w != [] && w[0] != [] && w[0][0] == s[0]
    ensures forall k :: 0 <= k < |w| ==> w[k] != [] && forall i :: 0 <= i < |w[k]| ==> !IsSpace(w[k][i])
  {
    if s == [] then []
    else
      var rest := Words(s[1..]);
      if IsSpace(s[0]) then rest
      else if |s| > 1 && !IsSpace(s[1]) then [[s[0]] + rest[0]] + rest[1..]
      else [[s[0]]] + rest
  }

  /** The characters of `s` that are not whitespace, in order. */
  function NonSpace(s: string): string
  {
    if s == [] then [] else (if IsSpace(s[0]) then [] else [s[0]]) + NonSpace(s[1..])
  }

  function Concat(ws: seq<string>): string
  {
    if ws == [] then [] else ws[0] + Concat(ws[1..])
  }

  lemma {:induction false} ConcatSnoc(ws: seq<string>, w: string)
    ensures Concat(ws + [w]) == Concat(ws) + w
  {
    if ws != [] {
      assert (ws + [w])[1..] == ws[1..] + [w];
      ConcatSnoc(ws[1..], w);
    } else {
      assert [] + [w] == [w];
      assert [w][1..] == [];
    }
  }

  /** `''.join(s.split())` deletes exactly the whitespace characters. */
  lemma {:induction false} ConcatWords(s: string)
    ensures Concat(Words(s)) == NonSpace(s)
  {
    if s != [] {
      ConcatWords(s[1..]);
      var rest := Words(s[1..]);
      if !IsSpace(s[0]) && |s| > 1 && !IsSpace(s[1]) {
        assert rest == [rest[0]] + rest[1..];
        assert Concat(rest) == rest[0] + Concat(rest[1..]);
        var w := [[s[0]] + rest[0]] + rest[1..];
        assert Concat(w) == [s[0]] + rest[0] + Concat(rest[1..]);
      } else if !IsSpace(s[0]) {
        assert Concat([[s[0]]] + rest) == [s[0]] + Concat(rest);
      }
    }
  }

  /** Number of indices where a run of non-whitespace characters starts;
      `afterSpace` says whether the character before `s` (if any) was whitespace. */
  function RunStarts(s: string, afterSpace: bool): nat
  {
    if s == [] then 0
    else (if afterSpace && !IsSpace(s[0]) then 1 else 0) + RunStarts(s[1..], IsSpace(s[0]))
  }

  /** `len(s.split())` is the number of maximal non-whitespace runs. */
  lemma {:induction false} WordsCount(s: string, afterSpace: bool)
    ensures |Words(s)| == RunStarts(s, true)
    ensures s != [] && !IsSpace(s[0]) ==> |Words(s)| == RunStarts(s, false) + 1
  {
    if s != [] {
      WordsCount(s[1..], afterSpace);
    }
  }

  /** `c.lower()` for ASCII letters; other characters are unchanged. */
  function LowerChar(c: char): char
  {
    if 'A' <= c <= 'Z' then (c as int + 32) as char else c
  }

  function Lower(s: string): (r: string)
    ensures |r| == |s| && forall i :: 0 <= i < |s| ==> r[i] == LowerChar(s[i])
  {
    if s == [] then [] else [LowerChar(s[0])] + Lower(s[1..])
  }

  /** `re.sub(r'\s+', ' ', s)`: every maximal whitespace run becomes one
      space; `inRun` says the previous character was whitespace. */
  function CollapseSpaces(s: string, inRun: bool): string
  {
    if s == [] then []
    else if IsSpace(s[0]) then (if inRun then CollapseSpaces(s[1..], true) else " " + CollapseSpaces(s[1..], true))
    else [s[0]] + CollapseSpaces(s[1..], false)
  }

  /** `re.sub(r'\s+', ' ', s).strip()`: the whitespace-normalised form used for duplicate detection. */
  function Normalize(s: string): string
  {
    Strip(CollapseSpaces(s, false))
  }

  function DigitChar(d: nat): char
    requires d < 10
  {
    "0123456789"[d]
  }

  function NatToString(n: nat): (r: string)
    ensures r != [] && '-' !in r && '\n' !in r
  {
    if n < 10 then [DigitChar(n)] else NatToString(n / 10) + [DigitChar(n % 10)]
  }

  /** `str(i)` for an integer. */
  function IntToString(i: int): (r: string)
    ensures r != [] && '\n' !in r
    ensures (r[0] == '-') <==> i < 0
  {
    if i < 0 then "-" + NatToString(-i) else NatToString(i)
  }

  /** Python's `a <= b` on strings: lexicographic by code point. */
  predicate LexLe(a: string, b: string)
  {
    a == [] || (b != [] && (a[0] < b[0] || (a[0] == b[0] && LexLe(a[1..], b[1..]))))
  }

  lemma {:induction false} LexTotal(a: string, b: string)
    ensures LexLe(a, b) || LexLe(b, a)
  {
    if a != [] && b != [] && a[0] == b[0] {
      LexTotal(a[1..], b[1..]);
    }
  }

  lemma {:induction false} LexAntisymmetric(a: string, b: string)
    requires LexLe(a, b) && LexLe(b, a)
    ensures a == b
  {
    if a != [] && b != [] {
      LexAntisymmetric(a[1..], b[1..]);
      assert a == [a[0]] + a[1..] && b == [b[0]] + b[1..];
    }
  }

  lemma {:induction false} LexTransitive(a: string, b: string, c: string)
    requires LexLe(a, b) && LexLe(b, c)
    ensures LexLe(a, c)
  {
    if a != [] && b != [] && c != [] && a[0] == b[0] && b[0] == c[0] {
      LexTransitive(a[1..], b[1..], c[1..]);
    }
  }

  /** Every non-empty finite set of strings has a least element. */
  lemma {:induction false} LeastExists(names: set<string>)
    requires names != {}
    ensures exists m :: IsLeast(m, names)
    decreases |names|
  {
    var x :| x in names;
    if names == {x} {
      LexTotal(x, x);
      assert IsLeast(x, names);
    } else {
      var rest := names - {x};
      LeastExists(rest);
      var m :| IsLeast(m, rest);
      LexTotal(m, x);
      if LexLe(m, x) {
        assert IsLeast(m, names);
      } else {
        forall n | n in names
          ensures LexLe(x, n)
        {
          if n != x {
            LexTransitive(x, m, n);
          } else {
            LexTotal(x, x);
          }
        }
        assert IsLeast(x, names);
      }
    }
  }

  predicate IsLeast(m: string, names: set<string>)
  {
    m in names && forall n :: n in names ==> LexLe(m, n)
  }

  lemma LeastUnique(names: set<string>)
    ensures forall a, b :: IsLeast(a, names) && IsLeast(b, names) ==> a == b
  {
    forall a, b | IsLeast(a, names) && IsLeast(b, names)
      ensures a == b
    {
      LexAntisymmetric(a, b);
    }
  }

  predicate LexSorted(r: seq<string>)
  {
    forall i, j :: 0 <= i < j < |r| ==> LexLe(r[i], r[j])
  }

  /** `sorted(names)` for a set of strings: ascending, each name once. */
  function SortedStrings(names: set<string>): (r: seq<string>)
    ensures |r| == |names| && LexSorted(r)
    ensures forall n :: n in r <==> n in names
    decreases |names|
  {
    if names == {} then []
    else
      LeastExists(names);
      LeastUnique(names);
      var m :| IsLeast(m, names);
      var r := SortedStrings(names - {m});
      LeastFirst(m, names, r);
      [m] + r
  }

  /** The least name, put in front of a sorted sequence of names, keeps it sorted. */
  lemma LeastFirst(m: string, names: set<string>, r: seq<string>)
    requires IsLeast(m, names) && LexSorted(r)
    requires forall n :: n in r ==> n in names
    ensures LexSorted([m] + r)
  {
    forall i, j | 0 <= i < j < |[m] + r|
      ensures LexLe(([m] + r)[i], ([m] + r)[j])
    {
      assert ([m] + r)[j] == r[j - 1] && r[j - 1] in r;
      if i > 0 {
        assert ([m] + r)[i] == r[i - 1];
      }
    }
  }

  /** `s[::-1]` on a list or a string. */
  function Reversed<T>(s: seq<T>): (r: seq<T>)
    ensures |r| == |s| && forall i :: 0 <= i < |s| ==> r[i] == s[|s| - 1 - i]
  {
    if s == [] then [] else Reversed(s[1..]) + [s[0]]
  }

  /** Reversing twice gives the sequence back. */
  lemma ReversedInvolution<T>(s: seq<T>)
    ensures Reversed(Reversed(s)) == s
  {
  }

  /** `s.count(x)` on a list, or on a string for a one-character `x`:
      the number of positions holding `x`. */
  function Count<T(==)>(s: seq<T>, x: T): (n: nat)
    ensures n == multiset(s)[x]
  {
    if s == [] then 0
    else
      assert s == [s[0]] + s[1..];
      (if s[0] == x then 1 else 0) + Count(s[1..], x)
  }
}
