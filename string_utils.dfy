/** The string module of the code under test: each function is one
    expression over slicing, `split`/`join`, `sorted` and `count`, with a
    guard that raises ValueError. */
module StringUtils {
  import opened Wrappers
  import opened Text

  datatype Error = ValueError(message: string)

  /** `reverse_string(s)`: `s[::-1]`. */
  function ReverseString(s: string): (r: string)
    ensures |r| == |s| && forall i :: 0 <= i < |s| ==> r[i] == s[|s| - 1 - i]
  {
    Reversed(s)
  }

  /** Reversing a string twice gives it back. */
  lemma ReverseStringInvolution(s: string)
    ensures ReverseString(ReverseString(s)) == s
  {
    ReversedInvolution(s);
  }

  // ----- count_words -----

  /** A string of whitespace only starts no run of other characters. */
  lemma {:induction false} RunStartsAllSpace(s: string, afterSpace: bool)
    requires AllSpace(s)
    ensures RunStarts(s, afterSpace) == 0
  {
    if s != [] {
      assert AllSpace(s[1..]) by {
        forall i | 0 <= i < |s[1..]|
          ensures IsSpace(s[1..][i])
        {
          assert s[1..][i] == s[i + 1];
        }
      }
      RunStartsAllSpace(s[1..], IsSpace(s[0]));
    }
  }

  /** `count_words(s)`: 0 for a blank string, otherwise `len(s.split())`;
      in both cases the number of maximal runs of non-whitespace characters. */
  function CountWords(s: string): (n: nat)
    ensures n == RunStarts(s, true)
    ensures AllSpace(s) ==> n == 0
  {
    StripEmpty(s);
    WordsCount(s, true);
    if Strip(s) == [] then
      RunStartsAllSpace(s, true);
      0
    else |Words(s)|
  }

  // ----- remove_whitespace and is_palindrome -----

  /** `remove_whitespace(s)`: `''.join(s.split())` deletes exactly the
      whitespace characters. */
  function RemoveWhitespace(s: string): (r: string)
    ensures r == NonSpace(s)
  {
    ConcatWords(s);
    Concat(Words(s))
  }

  lemma {:induction false} NonSpaceAppend(a: string, b: string)
    ensures NonSpace(a + b) == NonSpace(a) + NonSpace(b)
  {
    if a != [] {
      assert (a + b)[1..] == a[1..] + b;
      NonSpaceAppend(a[1..], b);
    } else {
      assert a + b == b;
    }
  }

  /** The characters `remove_whitespace` keeps: every other character, each
      as often as in `s`, and no whitespace. */
  lemma {:induction false} RemoveWhitespaceCounts(s: string, c: char)
    ensures IsSpace(c) ==> c !in RemoveWhitespace(s)
    ensures !IsSpace(c) ==> multiset(RemoveWhitespace(s))[c] == multiset(s)[c]
  {
    if s != [] {
      RemoveWhitespaceCounts(s[1..], c);
      assert s == [s[0]] + s[1..];
    }
  }

  /** The string `is_palindrome` compares with its reverse. */
  function Cleaned(s: string): string
  {
    Concat(Words(Lower(s)))
  }

  /** `is_palindrome(s)`: the lowercased string without whitespace reads the
      same backwards. */
  function IsPalindrome(s: string): (b: bool)
    ensures b <==> NonSpace(Lower(s)) == Reversed(NonSpace(Lower(s)))
  {
    ConcatWords(Lower(s));
    var cleaned := Cleaned(s);
    cleaned == Reversed(cleaned)
  }

  lemma {:induction false} ReversedAppend<T>(a: seq<T>, b: seq<T>)
    ensures Reversed(a + b) == Reversed(b) + Reversed(a)
  {
  }

  lemma {:induction false} NonSpaceReversed(s: string)
    ensures NonSpace(Reversed(s)) == Reversed(NonSpace(s))
  {
    if s != [] {
      NonSpaceReversed(s[1..]);
      assert Reversed(s) == Reversed(s[1..]) + [s[0]];
      NonSpaceAppend(Reversed(s[1..]), [s[0]]);
      assert [s[0]][1..] == [];
      var keep := if IsSpace(s[0]) then [] else [s[0]];
      assert NonSpace([s[0]]) == keep;
      ReversedAppend(keep, NonSpace(s[1..]));
      assert Reversed(keep) == keep;
    }
  }

  /** A string is a palindrome exactly when its reverse is. */
  lemma PalindromeOfReverse(s: string)
    ensures IsPalindrome(ReverseString(s)) <==> IsPalindrome(s)
  {
    var t := NonSpace(Lower(s));
    assert Lower(Reversed(s)) == Reversed(Lower(s));
    NonSpaceReversed(Lower(s));
    ReversedInvolution(t);
  }

  // ----- count_characters and replace_substring -----

  /** `count_characters(s, char)`: ValueError unless the target is one character,
      otherwise the number of its occurrences. */
  function CountCharacters(s: string, target: string): (r: Result<nat, Error>)
    ensures r.Failure? <==> |target| != 1
    ensures r.Failure? ==> r.error == ValueError("char must be a single character")
    ensures r.Success? ==> r.value == multiset(s)[target[0]] && r.value <= |s|
  {
    if |target| != 1 then Failure(ValueError("char must be a single character")) else Success(Count(s, target[0]))
  }

  /** `replace_substring(s, old, new)`: `s.replace(old, new)`; the string is
      unchanged when the old substring is absent or equals the new one. */
  function ReplaceSubstring(s: string, pattern: string, replacement: string): (r: string)
    ensures !Contains(s, pattern) ==> r == s
    ensures pattern == replacement ==> r == s
  {
    if !Contains(s, pattern) then ReplaceAllAbsent(s, pattern, replacement); ReplaceAll(s, pattern, replacement)
    else if pattern == replacement then ReplaceAllSame(s, pattern); ReplaceAll(s, pattern, replacement)
    else ReplaceAll(s, pattern, replacement)
  }

  /** For a non-empty pattern the result is the pieces of `s.split(pattern)`,
      none of which holds the pattern, joined by the replacement. */
  lemma ReplaceSubstringJoinsPieces(s: string, pattern: string, replacement: string)
    requires pattern != []
    ensures ReplaceSubstring(s, pattern, replacement) == Join(SplitOn(s, pattern), replacement)
    ensures Join(SplitOn(s, pattern), pattern) == s
  {
    ReplaceAllJoinsPieces(s, pattern, replacement);
    JoinSplitOn(s, pattern);
  }

  // ----- is_anagram -----

  /** `s` without the character `c`. */
  function Drop(s: string, c: char): string
  {
    if s == [] then [] else (if s[0] == c then [] else [s[0]]) + Drop(s[1..], c)
  }

  lemma {:induction false} DropAppend(a: string, b: string, c: char)
    ensures Drop(a + b, c) == Drop(a, c) + Drop(b, c)
  {
    if a != [] {
      assert (a + b)[1..] == a[1..] + b;
      DropAppend(a[1..], b, c);
    } else {
      assert a + b == b;
    }
  }

  lemma {:induction false} DropAbsent(s: string, c: char)
    requires forall j :: 0 <= j < |s| ==> s[j] != c
    ensures Drop(s, c) == s
  {
    if s != [] {
      DropAbsent(s[1..], c);
    }
  }

  /** `s.replace(' ', '')` removes exactly the space characters. */
  lemma {:induction false} ReplaceSpaceDrops(s: string)
    ensures ReplaceAll(s, " ", "") == Drop(s, ' ')
    decreases |s|
  {
    var f := Find(s, " ");
    if f.None? {
      NoSpaceBefore(s, |s|);
      assert s[..|s|] == s;
    } else {
      var i := f.value;
      ReplaceSpaceDrops(s[i + 1..]);
      NoSpaceBefore(s, i);
      DropAtSpace(s, i);
      assert s[..i] + "" == s[..i];
    }
  }

  /** No space occurs before the first one `find` reports. */
  lemma NoSpaceBefore(s: string, i: int)
    requires 0 <= i <= |s|
    requires forall j :: 0 <= j < i ==> !OccursAt(s, " ", j)
    ensures Drop(s[..i], ' ') == s[..i]
  {
    forall j | 0 <= j < i
      ensures s[..i][j] != ' '
    {
      assert !OccursAt(s, " ", j);
      assert s[j..j + 1] == [s[j]];
    }
    DropAbsent(s[..i], ' ');
  }

  /** Dropping spaces around a space found at `i`. */
  lemma DropAtSpace(s: string, i: int)
    requires OccursAt(s, " ", i)
    ensures Drop(s, ' ') == Drop(s[..i], ' ') + Drop(s[i + 1..], ' ')
  {
    assert s[i..i + 1] == " ";
    assert s == s[..i] + [' '] + s[i + 1..];
    DropAppend(s[..i] + [' '], s[i + 1..], ' ');
    DropAppend(s[..i], [' '], ' ');
    assert Drop([' '], ' ') == [];
  }

  lemma {:induction false} DropCounts(s: string, c: char, x: char)
    ensures multiset(Drop(s, c))[x] == if x == c then 0 else multiset(s)[x]
  {
    if s != [] {
      DropCounts(s[1..], c, x);
      assert s == [s[0]] + s[1..];
    }
  }

  /** The string `is_anagram` sorts: lowercased, spaces removed. */
  function AnagramKey(s: string): string
  {
    ReplaceAll(Lower(s), " ", "")
  }

  /** The characters `AnagramKey` keeps: all but the space, other
      whitespace included. */
  lemma AnagramKeyCounts(s: string, x: char)
    ensures multiset(AnagramKey(s))[x] == if x == ' ' then 0 else multiset(Lower(s))[x]
  {
    ReplaceSpaceDrops(Lower(s));
    DropCounts(Lower(s), ' ', x);
  }

  predicate SortedChars(s: string)
  {
    forall i, j :: 0 <= i < j < |s| ==> s[i] <= s[j]
  }

  /** `c` inserted before the first larger character. */
  function Insert(c: char, s: string): (r: string)
    ensures multiset(r) == multiset(s) + multiset{c}
  {
    if s == [] then [c]
    else if c <= s[0] then [c] + s
    else
      assert s == [s[0]] + s[1..];
      [s[0]] + Insert(c, s[1..])
  }

  lemma {:induction false} InsertSorted(c: char, s: string)
    requires SortedChars(s)
    ensures SortedChars(Insert(c, s))
  {
    if s != [] {
      assert forall k :: 0 <= k < |s| ==> s[0] <= s[k];
      if c <= s[0] {
        ConsSorted(c, s);
      } else {
        assert SortedChars(s[1..]);
        InsertSorted(c, s[1..]);
        InsertAbove(s[0], c, s[1..]);
        ConsSorted(s[0], Insert(c, s[1..]));
      }
    }
  }

  /** A lower bound of `c` and of every character of `s` bounds `Insert(c, s)`. */
  lemma {:induction false} InsertAbove(b: char, c: char, s: string)
    requires b <= c && forall k :: 0 <= k < |s| ==> b <= s[k]
    ensures forall k :: 0 <= k < |Insert(c, s)| ==> b <= Insert(c, s)[k]
  {
    if s != [] && !(c <= s[0]) {
      InsertAbove(b, c, s[1..]);
      var r := Insert(c, s[1..]);
      assert forall k :: 0 < k < |[s[0]] + r| ==> ([s[0]] + r)[k] == r[k - 1];
    }
  }

  /** A character no larger than the head of a sorted string keeps it sorted in front. */
  lemma ConsSorted(c: char, s: string)
    requires SortedChars(s) && forall k :: 0 <= k < |s| ==> c <= s[k]
    ensures SortedChars([c] + s)
  {
    assert forall k :: 0 < k < |[c] + s| ==> ([c] + s)[k] == s[k - 1];
  }

  /** `sorted(s)`: the characters in ascending code-point order. */
  function Sort(s: string): (r: string)
    ensures SortedChars(r) && multiset(r) == multiset(s)
  {
    if s == [] then []
    else
      assert s == [s[0]] + s[1..];
      InsertSorted(s[0], Sort(s[1..]));
      Insert(s[0], Sort(s[1..]))
  }

  lemma SortedHead(a: string, b: string)
    requires SortedChars(a) && SortedChars(b) && multiset(a) == multiset(b) && a != [] && b != []
    ensures a[0] == b[0]
  {
    assert a[0] in multiset(b) && b[0] in multiset(a);
  }

  lemma Tail(a: string)
    requires a != []
    ensures multiset(a[1..]) == multiset(a) - multiset{a[0]}
    ensures SortedChars(a) ==> SortedChars(a[1..])
  {
    assert a == [a[0]] + a[1..];
  }

  /** A sorted string is determined by its characters. */
  lemma {:induction false} SortedUnique(a: string, b: string)
    requires SortedChars(a) && SortedChars(b) && multiset(a) == multiset(b)
    ensures a == b
  {
    if a != [] && b != [] {
      SortedHead(a, b);
      Tail(a);
      Tail(b);
      SortedUnique(a[1..], b[1..]);
      assert a == [a[0]] + a[1..] && b == [b[0]] + b[1..];
    }
  }

  /** `is_anagram(s1, s2)`: the sorted keys are equal, that is, the keys hold
      the same characters equally often. */
  function IsAnagram(s1: string, s2: string): (b: bool)
    ensures b <==> multiset(AnagramKey(s1)) == multiset(AnagramKey(s2))
  {
    if multiset(AnagramKey(s1)) == multiset(AnagramKey(s2)) then
      SortedUnique(Sort(AnagramKey(s1)), Sort(AnagramKey(s2)));
      Sort(AnagramKey(s1)) == Sort(AnagramKey(s2))
    else
      Sort(AnagramKey(s1)) == Sort(AnagramKey(s2))
  }

  lemma IsAnagramSymmetric(s1: string, s2: string)
    ensures IsAnagram(s1, s2) == IsAnagram(s2, s1)
  {
  }

  lemma SpacedKey()
    ensures AnagramKey("a b") == "ab"
  {
    assert Lower("a b") == "a b";
    ReplaceSpaceDrops("a b");
    assert Drop("a b", ' ') == "ab";
  }

  lemma PlainKey()
    ensures AnagramKey("ab") == "ab"
  {
    assert Lower("ab") == "ab";
    ReplaceSpaceDrops("ab");
    assert Drop("ab", ' ') == "ab";
  }

  lemma TabKey()
    ensures AnagramKey("a\tb") == "a\tb"
  {
    assert Lower("a\tb") == "a\tb";
    ReplaceSpaceDrops("a\tb");
    assert Drop("a\tb", ' ') == "a\tb";
  }

  /** Spaces are ignored, but a tab is a character like any other. */
  lemma OnlySpacesIgnored()
    ensures IsAnagram("a b", "ab")
    ensures !IsAnagram("a\tb", "ab")
  {
    SpacedKey();
    PlainKey();
    TabKey();
    assert multiset("a\tb")['\t'] == 1 && multiset("ab")['\t'] == 0;
  }

  // ----- truncate -----

  /** The end of the slice `s[:b]` for a string of length `n`: a negative
      bound counts from the end. */
  function SliceEnd(n: nat, b: int): (e: nat)
    ensures e <= n
    ensures 0 <= b ==> e == if b <= n then b else n
    ensures b < 0 ==> e == if -b <= n then n + b else 0
  {
    if b < 0 then (if n + b < 0 then 0 else n + b) else if b > n then n else b
  }

  /** `truncate(s, max_length, suffix)`. */
  function Truncate(s: string, maxLength: int, suffix: string): (r: Result<string, Error>)
    ensures r.Failure? <==> maxLength < 0
    ensures r.Failure? ==> r.error == ValueError("max_length must be non-negative")
    ensures r.Success? && |s| <= maxLength ==> r.value == s
    ensures r.Success? && |s| > maxLength ==> |suffix| <= |r.value| && r.value[|r.value| - |suffix|..] == suffix
    ensures r.Success? && |s| > maxLength && |suffix| <= maxLength ==>
              |r.value| == maxLength && r.value == s[..maxLength - |suffix|] + suffix
    ensures r.Success? && |s| > maxLength && |suffix| > maxLength ==>
              |r.value| == SliceEnd(|s|, maxLength - |suffix|) + |suffix|
    ensures r.Success? && |s| > maxLength ==> r.value == s[..SliceEnd(|s|, maxLength - |suffix|)] + suffix
  {
    if maxLength < 0 then Failure(ValueError("max_length must be non-negative"))
    else if |s| <= maxLength then Success(s)
    else
      var kept := s[..SliceEnd(|s|, maxLength - |suffix|)];
      assert (kept + suffix)[|kept|..] == suffix;
      Success(kept + suffix)
  }

  /** A suffix longer than the limit: `truncate("abcdefgh", 2)` keeps
      `s[:-1]` and returns 10 characters. */
  lemma TruncateLongSuffix()
    ensures Truncate("abcdefgh", 2, "...") == Success("abcdefg...")
    ensures |Truncate("abcdefgh", 2, "...").value| == 10
  {
    assert "abcdefgh"[..7] + "..." == "abcdefg...";
  }
}
