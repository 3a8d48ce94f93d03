/**
 * String helpers the source takes from JavaScript: ASCII case mapping, substring search,
 * `split`/`join` on one character, `replace('_', ' ')`, the `\b\w` capitalisation regex,
 * and decimal rendering of integers.
 */
module Text {

  predicate IsUpper(c: char) { 'A' <= c <= 'Z' }

  predicate IsLower(c: char) { 'a' <= c <= 'z' }

  predicate IsDigit(c: char) { '0' <= c <= '9' }

  /** A character of the regular-expression class `\w`: `[A-Za-z0-9_]`. */
  predicate IsWordChar(c: char) { IsUpper(c) || IsLower(c) || IsDigit(c) || c == '_' }

  /** A non-empty word of lowercase letters only. */
  predicate LowerWord(s: string) {
    |s| > 0 && forall c :: c in s ==> IsLower(c)
  }

  function LowerChar(c: char): char {
    if IsUpper(c) then (c as int + 32) as char else c
  }

  function UpperChar(c: char): char {
    if IsLower(c) then (c as int - 32) as char else c
  }

  /** `s.toLowerCase()`, on the ASCII letters. */
  function ToLower(s: string): (r: string)
    ensures |r| == |s|
    ensures forall i :: 0 <= i < |s| ==> r[i] == LowerChar(s[i])
  {
    if s == [] then [] else [LowerChar(s[0])] + ToLower(s[1..])
  }

  /** Lowercasing a lowercased string changes nothing. */
  lemma ToLowerIdempotent(s: string)
    ensures ToLower(ToLower(s)) == ToLower(s)
  {
    var t := ToLower(s);
    assert forall i :: 0 <= i < |t| ==> !IsUpper(t[i]);
  }

  predicate IsPrefix(p: string, s: string) {
    |p| <= |s| && s[..|p|] == p
  }

  /** JavaScript's `hay.includes(needle)`. */
  predicate Contains(hay: string, needle: string)
    decreases |hay|
  {
    IsPrefix(needle, hay) || (|hay| > 0 && Contains(hay[1..], needle))
  }

  /** `needle` occurs in `hay` starting at position `i`. */
  predicate OccursAt(hay: string, needle: string, i: int) {
    0 <= i <= |hay| - |needle| && hay[i..i + |needle|] == needle
  }

  /** `Contains` holds exactly when the needle occurs at some position. */
  lemma {:induction false} ContainsIff(hay: string, needle: string)
    ensures Contains(hay, needle) <==> exists i :: OccursAt(hay, needle, i)
    decreases |hay|
  {
    if IsPrefix(needle, hay) {
      assert OccursAt(hay, needle, 0);
    } else if |hay| > 0 {
      ContainsIff(hay[1..], needle);
      if exists i :: OccursAt(hay, needle, i) {
        var i :| OccursAt(hay, needle, i);
        assert i != 0;
        assert hay[1..][i - 1..i - 1 + |needle|] == hay[i..i + |needle|];
        assert OccursAt(hay[1..], needle, i - 1);
      }
      if exists i :: OccursAt(hay[1..], needle, i) {
        var i :| OccursAt(hay[1..], needle, i);
        assert hay[i + 1..i + 1 + |needle|] == hay[1..][i..i + |needle|];
        assert OccursAt(hay, needle, i + 1);
      }
    }
  }

  /** The position of the first `c` in `s`, or `|s|` when there is none. */
  function IndexOf(s: string, c: char): (i: nat)
    ensures i <= |s|
    ensures forall j :: 0 <= j < i ==> s[j] != c
    ensures i < |s| ==> s[i] == c
  {
    if s == [] then 0 else if s[0] == c then 0 else 1 + IndexOf(s[1..], c)
  }

  /** `s.replace(a, b)` with a one-character string pattern: only the first occurrence changes. */
  function ReplaceFirst(s: string, a: char, b: char): (r: string)
    ensures var i := IndexOf(s, a); r == if i == |s| then s else s[..i] + [b] + s[i + 1..]
  {
    if s == [] then s
    else if s[0] == a then [b] + s[1..]
    else [s[0]] + ReplaceFirst(s[1..], a, b)
  }

  /** Position `i` of `s` is where the regular expression `\b\w` matches. */
  predicate WordStart(s: string, i: nat)
    requires i < |s|
  {
    IsWordChar(s[i]) && (i == 0 || !IsWordChar(s[i - 1]))
  }

  /** `s.replace(/\b\w/g, l => l.toUpperCase())`. */
  function CapitalizeWords(s: string): (r: string)
    ensures |r| == |s|
    ensures forall i :: 0 <= i < |s| ==> r[i] == if WordStart(s, i) then UpperChar(s[i]) else s[i]
  {
    CapitalizeAfter(s, false)
  }

  /** Capitalisation of `s` when the character before it was (`afterWord`) or was not a word character. */
  function CapitalizeAfter(s: string, afterWord: bool): (r: string)
    ensures |r| == |s|
    ensures |s| > 0 ==> r[0] == if IsWordChar(s[0]) && !afterWord then UpperChar(s[0]) else s[0]
    ensures forall i :: 1 <= i < |s| ==> r[i] == if WordStart(s, i) then UpperChar(s[i]) else s[i]
  {
    if s == [] then []
    else
      var tail := CapitalizeAfter(s[1..], IsWordChar(s[0]));
      assert forall i :: 2 <= i < |s| ==> WordStart(s, i) == WordStart(s[1..], i - 1);
      [if IsWordChar(s[0]) && !afterWord then UpperChar(s[0]) else s[0]] + tail
  }

  /**
   * The label rendering used for statuses and roles:
   * `s.replace('_', ' ').replace(/\b\w/g, l => l.toUpperCase())`.
   */
  function Humanize(s: string): (r: string)
    ensures |r| == |s|
  {
    CapitalizeWords(ReplaceFirst(s, '_', ' '))
  }

  /** A single lowercase word gets its first letter capitalised and nothing else. */
  lemma {:induction false} HumanizeWord(s: string)
    requires LowerWord(s)
    ensures Humanize(s) == [UpperChar(s[0])] + s[1..]
  {
    assert '_' !in s;
    assert IndexOf(s, '_') == |s|;
    var r := Humanize(s);
    assert forall i :: 1 <= i < |s| ==> !WordStart(s, i);
    assert r == [UpperChar(s[0])] + s[1..];
  }

  /** Two lowercase words joined by an underscore become two capitalised words joined by a space. */
  lemma HumanizeTwoWords(a: string, b: string)
    requires LowerWord(a) && LowerWord(b)
    ensures Humanize(a + "_" + b) == [UpperChar(a[0])] + a[1..] + " " + [UpperChar(b[0])] + b[1..]
  {
    assert '_' !in a;
    ReplaceBetween(a, b);
    CapitalizeTwoWords(a, b);
  }

  /** The first underscore of `a + "_" + b`, when `a` has none, is the one between them. */
  lemma ReplaceBetween(a: string, b: string)
    requires '_' !in a
    ensures ReplaceFirst(a + "_" + b, '_', ' ') == a + " " + b
  {
    var u := a + "_" + b;
    assert u[|a|] == '_';
    assert forall j :: 0 <= j < |a| ==> u[j] == a[j];
    assert IndexOf(u, '_') == |a|;
    assert u[..|a|] == a && u[|a| + 1..] == b;
  }

  lemma CapitalizeTwoWords(a: string, b: string)
    requires LowerWord(a) && LowerWord(b)
    ensures CapitalizeWords(a + " " + b) == [UpperChar(a[0])] + a[1..] + " " + [UpperChar(b[0])] + b[1..]
  {
    var s := a + " " + b;
    var r := CapitalizeWords(s);
    var t := [UpperChar(a[0])] + a[1..] + " " + [UpperChar(b[0])] + b[1..];
    assert |r| == |t|;
    forall i | 0 <= i < |t|
      ensures r[i] == t[i]
    {
      if i < |a| {
        assert s[i] == a[i];
        if i > 0 {
          assert s[i - 1] == a[i - 1] && !WordStart(s, i);
          assert t[i] == a[i];
        }
      } else if i == |a| {
        assert s[i] == ' ' && t[i] == ' ';
      } else {
        assert s[i] == b[i - |a| - 1];
        if i > |a| + 1 {
          assert s[i - 1] == b[i - |a| - 2] && !WordStart(s, i);
          assert t[i] == b[i - |a| - 1];
        } else {
          assert s[i - 1] == ' ' && WordStart(s, i);
          assert t[i] == UpperChar(b[0]);
        }
      }
    }
  }

  lemma HumanizePending()
    ensures Humanize("pending") == "Pending"
  {
    PendingWord();
    HumanizeWord("pending");
  }

  lemma PendingWord()
    ensures LowerWord("pending") && [UpperChar("pending"[0])] + "pending"[1..] == "Pending"
  {
  }

  lemma HumanizeCompleted()
    ensures Humanize("completed") == "Completed"
  {
    CompletedWord();
    HumanizeWord("completed");
  }

  lemma CompletedWord()
    ensures LowerWord("completed") && [UpperChar("completed"[0])] + "completed"[1..] == "Completed"
  {
  }

  lemma HumanizeInProgress()
    ensures Humanize("in_progress") == "In Progress"
  {
    InProgressWords("in", "progress");
    HumanizeTwoWords("in", "progress");
  }

  /** The facts about the two words of `in_progress` that `HumanizeTwoWords` needs. */
  lemma InProgressWords(a: string, b: string)
    requires a == "in" && b == "progress"
    ensures LowerWord(a) && LowerWord(b) && a + "_" + b == "in_progress"
    ensures [UpperChar(a[0])] + a[1..] + " " + [UpperChar(b[0])] + b[1..] == "In Progress"
  {
  }

  /** Only the first underscore becomes a space; a later one keeps the rest in one word. */
  lemma HumanizeSecondUnderscore()
    ensures Humanize("a_b_c") == "A B_c"
  {
    SecondUnderscoreWords("a", "b_c");
    ReplaceBetween("a", "b_c");
    CapitalizeSecondUnderscore("a b_c");
  }

  lemma SecondUnderscoreWords(a: string, b: string)
    requires a == "a" && b == "b_c"
    ensures '_' !in a && a + "_" + b == "a_b_c" && a + " " + b == "a b_c"
  {
  }

  /** In `a b_c` the words start at positions 0 and 2: the underscore is a word character. */
  lemma CapitalizeSecondUnderscore(s: string)
    requires s == "a b_c"
    ensures CapitalizeWords(s) == "A B_c"
  {
    var r := CapitalizeWords(s);
    assert WordStart(s, 0) && !WordStart(s, 1) && WordStart(s, 2) && !WordStart(s, 3) && !WordStart(s, 4);
    assert r[0] == 'A' && r[1] == ' ' && r[2] == 'B' && r[3] == '_' && r[4] == 'c';
  }

  /** `parts.join(sep)` for a one-character separator. */
  function Join(parts: seq<string>, sep: char): string {
    if |parts| == 0 then ""
    else if |parts| == 1 then parts[0]
    else parts[0] + [sep] + Join(parts[1..], sep)
  }

  /** A join of two or more parts: the first part, the separator, and the join of the rest. */
  lemma JoinCons(parts: seq<string>, sep: char)
    requires |parts| >= 2
    ensures Join(parts, sep) == parts[0] + ([sep] + Join(parts[1..], sep))
  {
    assert parts[0] + [sep] + Join(parts[1..], sep) == parts[0] + ([sep] + Join(parts[1..], sep));
  }

  /** `s.split(sep)` for a one-character separator: never empty, `"".split(c)` is `[""]`. */
  function Split(s: string, sep: char): (r: seq<string>)
    ensures |r| >= 1
    decreases |s|
  {
    if s == [] then [""]
    else if s[0] == sep then [""] + Split(s[1..], sep)
    else var t := Split(s[1..], sep); [[s[0]] + t[0]] + t[1..]
  }

  /** A prefix free of the separator joins onto the first piece. */
  lemma {:induction false} SplitFreePrefix(p: string, t: string, sep: char)
    requires sep !in p
    ensures Split(p + t, sep) == [p + Split(t, sep)[0]] + Split(t, sep)[1..]
  {
    if p == [] {
      assert p + t == t;
      assert p + Split(t, sep)[0] == Split(t, sep)[0];
      assert [Split(t, sep)[0]] + Split(t, sep)[1..] == Split(t, sep);
    } else {
      assert (p + t)[0] == p[0] && (p + t)[1..] == p[1..] + t;
      SplitFreePrefix(p[1..], t, sep);
      assert [p[0]] + (p[1..] + Split(t, sep)[0]) == p + Split(t, sep)[0];
    }
  }

  /** Splitting what was joined gives the parts back, when no part contains the separator. */
  lemma {:induction false} SplitJoin(parts: seq<string>, sep: char)
    requires |parts| >= 1
    requires forall i :: 0 <= i < |parts| ==> sep !in parts[i]
    ensures Split(Join(parts, sep), sep) == parts
  {
    if |parts| == 1 {
      SplitFreePrefix(parts[0], "", sep);
      assert parts[0] + "" == parts[0];
    } else {
      var rest := Join(parts[1..], sep);
      SplitJoin(parts[1..], sep);
      assert Join(parts, sep) == parts[0] + ([sep] + rest);
      SplitFreePrefix(parts[0], [sep] + rest, sep);
      assert ([sep] + rest)[1..] == rest;
      assert parts[0] + "" == parts[0];
      assert parts == [parts[0]] + parts[1..];
    }
  }

  /** `s.split(c)[0]`: the text before the first `c`. */
  function Before(s: string, c: char): (r: string)
    ensures r == s[..IndexOf(s, c)]
  {
    SplitHead(s, c);
    Split(s, c)[0]
  }

  lemma {:induction false} SplitHead(s: string, c: char)
    ensures Split(s, c)[0] == s[..IndexOf(s, c)]
  {
    if s != [] && s[0] != c {
      SplitHead(s[1..], c);
    }
  }

  function DigitChar(d: nat): char
    requires d < 16
  {
    if d < 10 then ('0' as int + d) as char else ('a' as int + d - 10) as char
  }

  /** The decimal digits of `n`, without leading zeros. */
  function NatToString(n: nat): (r: string)
    ensures |r| >= 1
    ensures forall i :: 0 <= i < |r| ==> IsDigit(r[i])
    ensures r[0] == '0' ==> n == 0
  {
    if n < 10 then [DigitChar(n)] else NatToString(n / 10) + [DigitChar(n % 10)]
  }

  /** JavaScript's `String(n)` for an integer. */
  function IntToString(n: int): (r: string)
    ensures |r| >= 1
    ensures '"' !in r && '\n' !in r && ',' !in r
  {
    if n < 0 then "-" + NatToString(-n) else NatToString(n)
  }

  /** `toFixed(1)` of a non-negative number given in tenths: always one decimal place. */
  function TenthsText(t: nat): (s: string)
    ensures |s| >= 3 && s[|s| - 2] == '.' && s[|s| - 1] == DigitChar(t % 10)
  {
    NatToString(t / 10) + "." + [DigitChar(t % 10)]
  }
}
