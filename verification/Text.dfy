/** Strings as the program's two languages see them: searching, splitting, joining, words and UTF-8 length. */
module Text {
  import opened Wrappers

  predicate OccursAt(text: string, pattern: string, i: int) {
    0 <= i <= |text| && pattern <= text[i..]
  }

  // str.find: the leftmost place where the pattern occurs.
  function Find(text: string, pattern: string): (r: Option<nat>)
    ensures r.None? ==> forall i :: !OccursAt(text, pattern, i)
    ensures r.Some? ==> OccursAt(text, pattern, r.value) && forall i :: 0 <= i < r.value ==> !OccursAt(text, pattern, i)
  {
    if pattern <= text then
      assert text[0..] == text;
      Some(0)
    else if text == "" then
      None
    else
      var rest := Find(text[1..], pattern);
      assert forall i :: 1 <= i <= |text| ==> text[i..] == text[1..][i - 1..];
      assert text[0..] == text;
      assert forall i :: OccursAt(text, pattern, i) ==> OccursAt(text[1..], pattern, i - 1);
      if rest.None? then None else
        assert forall i :: OccursAt(text[1..], pattern, i) ==> OccursAt(text, pattern, i + 1);
        Some(rest.value + 1)
  }

  lemma FindIsLeftmost(text: string, pattern: string, i: nat)
    requires OccursAt(text, pattern, i) && forall j :: 0 <= j < i ==> !OccursAt(text, pattern, j)
    ensures Find(text, pattern) == Some(i)
  {}

  lemma OccurrenceFits(text: string, pattern: string, i: int)
    requires OccursAt(text, pattern, i)
    ensures i + |pattern| <= |text|
  {}

  // ---------- white space and words ----------

  datatype Language = Python | Rust

  // str.isspace in Python; the White_Space property in Rust, which leaves out the four separators 1C to 1F.
  predicate IsSpace(lang: Language, c: char) {
    var n := c as int;
    0x09 <= n <= 0x0D || n == 0x20 || n == 0x85 || n == 0xA0 || n == 0x1680 || 0x2000 <= n <= 0x200A
    || n == 0x2028 || n == 0x2029 || n == 0x202F || n == 0x205F || n == 0x3000
    || (lang == Python && 0x1C <= n <= 0x1F)
  }

  lemma SpacesAre(c: char)
    ensures var shared := {9, 10, 11, 12, 13, 32, 133, 160, 5760, 8192, 8193, 8194, 8195, 8196, 8197, 8198, 8199, 8200,
                           8201, 8202, 8232, 8233, 8239, 8287, 12288};
      IsSpace(Rust, c) <==> c as int in shared
    ensures IsSpace(Python, c) <==> IsSpace(Rust, c) || c as int in {28, 29, 30, 31}
  {}

  // The length of the run of non-space characters a text starts with.
  function WordLength(lang: Language, s: string): (n: nat)
    ensures n <= |s|
    ensures forall i :: 0 <= i < n ==> !IsSpace(lang, s[i])
    ensures n < |s| ==> IsSpace(lang, s[n])
  {
    if s == "" || IsSpace(lang, s[0]) then 0 else 1 + WordLength(lang, s[1..])
  }

  // split() and split_whitespace().
  function Words(lang: Language, s: string): seq<string>
    decreases |s|
  {
    if s == "" then []
    else if IsSpace(lang, s[0]) then Words(lang, s[1..])
    else
      var n := WordLength(lang, s);
      [s[..n]] + Words(lang, s[n..])
  }

  predicate IsWord(lang: Language, s: string) {
    s != "" && forall i :: 0 <= i < |s| ==> !IsSpace(lang, s[i])
  }

  lemma WordLengthIs(lang: Language, s: string, n: nat)
    requires n <= |s| && (forall i :: 0 <= i < n ==> !IsSpace(lang, s[i])) && (n < |s| ==> IsSpace(lang, s[n]))
    ensures WordLength(lang, s) == n
  {}

  lemma FirstWordLengthOfConcat(lang: Language, a: string, b: string, n: nat)
    requires n == WordLength(lang, a)
    requires n < |a| || b == "" || IsSpace(lang, b[0])
    ensures WordLength(lang, a + b) == n
  {
    hide IsSpace;
    WordLengthIs(lang, a + b, n);
  }

  lemma SliceOfConcat(a: string, b: string, n: nat)
    requires n <= |a|
    ensures (a + b)[..n] == a[..n] && (a + b)[n..] == a[n..] + b
  {}

  lemma FirstWordOfConcat(lang: Language, a: string, b: string, n: nat)
    requires a != "" && !IsSpace(lang, a[0]) && n == WordLength(lang, a)
    requires n < |a| || b == "" || IsSpace(lang, b[0])
    ensures Words(lang, a + b) == [a[..n]] + Words(lang, a[n..] + b)
  {
    hide *;
    FirstWordLengthOfConcat(lang, a, b, n);
    FirstWord(lang, a + b, n);
    SliceOfConcat(a, b, n);
  }

  // Where a space separates them, the words of two texts are the words of both.
  lemma {:induction false} WordsOfConcat(lang: Language, a: string, b: string)
    requires a == "" || b == "" || IsSpace(lang, a[|a| - 1]) || IsSpace(lang, b[0])
    ensures Words(lang, a + b) == Words(lang, a) + Words(lang, b)
    decreases |a|
  {
    hide IsSpace, Words, WordLength;
    WordsOfEmpty(lang);
    if a == "" {
      assert a + b == b;
    } else if IsSpace(lang, a[0]) {
      FirstSpace(lang, a);
      FirstSpace(lang, a + b);
      assert (a + b)[1..] == a[1..] + b;
      WordsOfConcat(lang, a[1..], b);
    } else {
      var n := WordLength(lang, a);
      FirstWord(lang, a, n);
      FirstWordOfConcat(lang, a, b, n);
      WordsOfConcat(lang, a[n..], b);
      WordsAssociate([a[..n]], Words(lang, a[n..]), Words(lang, b));
    }
  }

  lemma WordsAssociate(a: seq<string>, b: seq<string>, c: seq<string>)
    ensures a + (b + c) == (a + b) + c
  {}

  lemma WordsOfEmpty(lang: Language)
    ensures Words(lang, "") == []
  {}

  lemma FirstSpace(lang: Language, s: string)
    requires s != "" && IsSpace(lang, s[0])
    ensures Words(lang, s) == Words(lang, s[1..])
  {}

  lemma FirstWord(lang: Language, s: string, n: nat)
    requires s != "" && !IsSpace(lang, s[0]) && n == WordLength(lang, s)
    ensures n > 0 && Words(lang, s) == [s[..n]] + Words(lang, s[n..])
  {}

  lemma {:induction false} SpacesHaveNoWords(lang: Language, s: string)
    requires forall i :: 0 <= i < |s| ==> IsSpace(lang, s[i])
    ensures Words(lang, s) == []
  {
    if s != "" {
      SpacesHaveNoWords(lang, s[1..]);
    }
  }

  lemma WordIsItself(lang: Language, s: string)
    requires IsWord(lang, s)
    ensures Words(lang, s) == [s]
  {
    WordLengthIs(lang, s, |s|);
    assert s[..|s|] == s && s[|s|..] == "";
  }

  lemma {:induction false} WordsAreWords(lang: Language, s: string)
    ensures forall i :: 0 <= i < |Words(lang, s)| ==> IsWord(lang, Words(lang, s)[i])
    decreases |s|
  {
    if s != "" {
      if IsSpace(lang, s[0]) {
        WordsAreWords(lang, s[1..]);
      } else {
        WordsAreWords(lang, s[WordLength(lang, s)..]);
      }
    }
  }

  lemma {:induction false} NoWordsMeansSpaces(lang: Language, s: string)
    requires Words(lang, s) == []
    ensures forall i :: 0 <= i < |s| ==> IsSpace(lang, s[i])
  {
    if s != "" {
      NoWordsMeansSpaces(lang, s[1..]);
    }
  }

  // ---------- strip ----------

  function StripLeft(lang: Language, s: string): string {
    if s != "" && IsSpace(lang, s[0]) then StripLeft(lang, s[1..]) else s
  }

  function StripRight(lang: Language, s: string): string {
    if s != "" && IsSpace(lang, s[|s| - 1]) then StripRight(lang, s[..|s| - 1]) else s
  }

  function Strip(lang: Language, s: string): string {
    StripRight(lang, StripLeft(lang, s))
  }

  lemma {:induction false} StripLeftKeeps(lang: Language, s: string)
    ensures Words(lang, StripLeft(lang, s)) == Words(lang, s)
    ensures Utf8Length(StripLeft(lang, s)) <= Utf8Length(s)
  {
    if s != "" && IsSpace(lang, s[0]) {
      StripLeftKeeps(lang, s[1..]);
      Utf8LengthOfConcat([s[0]], s[1..]);
      assert [s[0]] + s[1..] == s;
    }
  }

  lemma {:induction false} StripRightKeeps(lang: Language, s: string)
    ensures Words(lang, StripRight(lang, s)) == Words(lang, s)
    ensures Utf8Length(StripRight(lang, s)) <= Utf8Length(s)
  {
    if s != "" && IsSpace(lang, s[|s| - 1]) {
      var front, last := s[..|s| - 1], [s[|s| - 1]];
      StripRightKeeps(lang, front);
      assert front + last == s;
      WordsOfConcat(lang, front, last);
      SpacesHaveNoWords(lang, last);
      Utf8LengthOfConcat(front, last);
    }
  }

  lemma StripKeeps(lang: Language, s: string)
    ensures Words(lang, Strip(lang, s)) == Words(lang, s)
    ensures Utf8Length(Strip(lang, s)) <= Utf8Length(s)
    ensures Strip(lang, s) == "" <==> Words(lang, s) == []
    ensures IsWord(lang, s) ==> Strip(lang, s) == s
  {
    StripLeftKeeps(lang, s);
    StripRightKeeps(lang, StripLeft(lang, s));
    if Strip(lang, s) != "" && Words(lang, s) == [] {
      NoWordsMeansSpaces(lang, Strip(lang, s));
      StripRightEnd(lang, StripLeft(lang, s));
    }
  }

  lemma {:induction false} StripRightEnd(lang: Language, s: string)
    ensures var r := StripRight(lang, s); r != "" ==> !IsSpace(lang, r[|r| - 1])
  {
    if s != "" && IsSpace(lang, s[|s| - 1]) {
      StripRightEnd(lang, s[..|s| - 1]);
    }
  }

  // ---------- UTF-8 length ----------

  function CharBytes(c: char): nat {
    var n := c as int;
    if n < 0x80 then 1 else if n < 0x800 then 2 else if n < 0x10000 then 3 else 4
  }

  // Seven bits make one byte, eleven two, sixteen three.
  lemma CharBytesAre(c: char)
    ensures CharBytes(c) == 1 <==> c as int <= 127
    ensures CharBytes(c) <= 2 <==> c as int <= 2047
    ensures CharBytes(c) <= 3 <==> c as int <= 65535
    ensures 1 <= CharBytes(c) <= 4
  {}

  function Utf8Length(s: string): nat {
    if s == "" then 0 else CharBytes(s[0]) + Utf8Length(s[1..])
  }

  lemma {:induction false} Utf8LengthOfConcat(a: string, b: string)
    ensures Utf8Length(a + b) == Utf8Length(a) + Utf8Length(b)
  {
    if a == "" {
      assert a + b == b;
    } else {
      assert (a + b)[1..] == a[1..] + b;
      Utf8LengthOfConcat(a[1..], b);
    }
  }

  // ---------- splitting and joining ----------

  function Join(separator: string, parts: seq<string>): string {
    if parts == [] then "" else if |parts| == 1 then parts[0]
    else Join(separator, parts[..|parts| - 1]) + separator + parts[|parts| - 1]
  }

  lemma JoinOneMore(separator: string, parts: seq<string>, part: string)
    ensures Join(separator, parts + [part]) == if parts == [] then part else Join(separator, parts) + separator + part
  {
    assert (parts + [part])[..|parts|] == parts;
  }

  // split on a non-empty separator, from the left.
  function Split(s: string, separator: string): (parts: seq<string>)
    requires separator != ""
    ensures parts != []
    decreases |s|
  {
    var at := Find(s, separator);
    if at.None? then [s]
    else [s[..at.value]] + Split(s[at.value + |separator|..], separator)
  }

  function WordsOfAll(lang: Language, parts: seq<string>): seq<string> {
    if parts == [] then [] else WordsOfAll(lang, parts[..|parts| - 1]) + Words(lang, parts[|parts| - 1])
  }

  lemma WordsOfOneMore(lang: Language, parts: seq<string>, part: string)
    ensures WordsOfAll(lang, parts + [part]) == WordsOfAll(lang, parts) + Words(lang, part)
  {
    assert (parts + [part])[..|parts|] == parts;
  }

  lemma WordsOfNone(lang: Language)
    ensures WordsOfAll(lang, []) == []
  {}

  lemma {:induction false} WordsOfAllConcat(lang: Language, a: seq<string>, b: seq<string>)
    ensures WordsOfAll(lang, a + b) == WordsOfAll(lang, a) + WordsOfAll(lang, b)
  {
    hide Words, WordsOfAll;
    WordsOfNone(lang);
    if b == [] {
      assert a + b == a;
    } else {
      var front, last := b[..|b| - 1], b[|b| - 1];
      WordsOfAllConcat(lang, a, front);
      WordsOfOneMore(lang, a + front, last);
      WordsOfOneMore(lang, front, last);
      assert b == front + [last] && a + b == (a + front) + [last];
    }
  }

  predicate IsBlank(lang: Language, s: string) {
    s != "" && forall i :: 0 <= i < |s| ==> IsSpace(lang, s[i])
  }

  lemma WordsAcross(lang: Language, a: string, separator: string, b: string)
    requires IsBlank(lang, separator)
    ensures Words(lang, a + separator + b) == Words(lang, a) + Words(lang, b)
  {
    hide Words, IsSpace;
    WordsOfConcat(lang, a, separator);
    SpacesHaveNoWords(lang, separator);
    assert (a + separator)[|a + separator| - 1] == separator[|separator| - 1];
    WordsOfConcat(lang, a + separator, b);
  }

  // The parts joined again are the text, and none of them contains the separator.
  lemma {:induction false} SplitIsUndone(s: string, separator: string)
    requires separator != ""
    ensures Join(separator, Split(s, separator)) == s
    ensures forall part :: part in Split(s, separator) ==> Find(part, separator).None?
    decreases |s|
  {
    hide Find, Join, OccursAt;
    var at := Find(s, separator);
    JoinOneMore(separator, [], s);
    assert [] + [s] == [s];
    if at.Some? {
      OccurrenceFits(s, separator, at.value);
      OccurrenceIs(s, separator, at.value);
      var first, rest := s[..at.value], s[at.value + |separator|..];
      SplitIsUndone(rest, separator);
      JoinFromLeft(separator, first, Split(rest, separator));
      assert s == first + separator + rest;
      NotFoundBefore(s, separator, at.value);
    }
  }

  lemma OccurrenceIs(text: string, pattern: string, i: nat)
    requires OccursAt(text, pattern, i) && i + |pattern| <= |text|
    ensures text[i..i + |pattern|] == pattern
  {
    assert text[i..][..|pattern|] == text[i..i + |pattern|];
  }

  lemma NotFoundBefore(text: string, pattern: string, i: nat)
    requires i <= |text| && pattern != "" && forall j :: 0 <= j < i ==> !OccursAt(text, pattern, j)
    ensures Find(text[..i], pattern).None?
  {
    forall j ensures !OccursAt(text[..i], pattern, j) {
      if 0 <= j && j + |pattern| <= i {
        assert text[j..][..|pattern|] == text[..i][j..][..|pattern|];
        assert !OccursAt(text, pattern, j);
      }
    }
  }

  lemma {:induction false} JoinFromLeft(separator: string, first: string, rest: seq<string>)
    requires rest != []
    ensures Join(separator, [first] + rest) == first + separator + Join(separator, rest)
  {
    hide Join;
    var front, last := rest[..|rest| - 1], rest[|rest| - 1];
    JoinOneMore(separator, front, last);
    JoinOneMore(separator, [first] + front, last);
    JoinOneMore(separator, [], first);
    assert [] + [first] == [first];
    assert rest == front + [last] && [first] + rest == ([first] + front) + [last];
    if front == [] {
      assert [first] + front == [first];
    } else {
      JoinFromLeft(separator, first, front);
      assert (first + separator + Join(separator, front)) + separator + last
          == first + separator + (Join(separator, front) + separator + last);
    }
  }

  // Trimming leaves a text without white space at its ends, cut from the middle of the original.
  lemma StripIs(lang: Language, s: string) returns (a: string, b: string)
    ensures s == a + Strip(lang, s) + b
    ensures (forall i :: 0 <= i < |a| ==> IsSpace(lang, a[i])) && forall i :: 0 <= i < |b| ==> IsSpace(lang, b[i])
    ensures var r := Strip(lang, s); r != "" ==> !IsSpace(lang, r[0]) && !IsSpace(lang, r[|r| - 1])
  {
    hide IsSpace;
    a := StripLeftIs(lang, s);
    b := StripRightIs(lang, StripLeft(lang, s));
    assert s == a + (Strip(lang, s) + b) == a + Strip(lang, s) + b;
    StripRightEnd(lang, StripLeft(lang, s));
  }

  lemma {:induction false} StripLeftIs(lang: Language, s: string) returns (a: string)
    ensures s == a + StripLeft(lang, s) && forall i :: 0 <= i < |a| ==> IsSpace(lang, a[i])
    ensures var r := StripLeft(lang, s); r != "" ==> !IsSpace(lang, r[0])
  {
    hide IsSpace;
    a := "";
    if s != "" && IsSpace(lang, s[0]) {
      var rest := StripLeftIs(lang, s[1..]);
      a := [s[0]] + rest;
    }
  }

  lemma {:induction false} StripRightIs(lang: Language, s: string) returns (b: string)
    ensures s == StripRight(lang, s) + b && forall i :: 0 <= i < |b| ==> IsSpace(lang, b[i])
  {
    hide IsSpace;
    b := "";
    if s != "" && IsSpace(lang, s[|s| - 1]) {
      var rest := StripRightIs(lang, s[..|s| - 1]);
      b := rest + [s[|s| - 1]];
    }
  }

  lemma {:induction false} SplitKeepsWords(lang: Language, s: string, separator: string)
    requires IsBlank(lang, separator)
    ensures WordsOfAll(lang, Split(s, separator)) == Words(lang, s)
    decreases |s|
  {
    hide Find, Words, WordsOfAll, IsSpace, OccursAt;
    var at := Find(s, separator);
    if at.None? {
      WordsOfJustOne(lang, s);
    } else {
      var i := at.value;
      OccurrenceFits(s, separator, i);
      var rest := s[i + |separator|..];
      SplitKeepsWords(lang, rest, separator);
      OccurrenceSplits(s, separator, i);
      WordsAcross(lang, s[..i], separator, rest);
      WordsOfAllConcat(lang, [s[..i]], Split(rest, separator));
      WordsOfJustOne(lang, s[..i]);
    }
  }

  lemma OccurrenceSplits(text: string, pattern: string, i: nat)
    requires OccursAt(text, pattern, i)
    ensures i + |pattern| <= |text| && text == text[..i] + pattern + text[i + |pattern|..]
  {}

  lemma WordsOfJustOne(lang: Language, s: string)
    ensures WordsOfAll(lang, [s]) == Words(lang, s)
  {
    WordsOfOneMore(lang, [], s);
    assert [] + [s] == [s] && [] + Words(lang, s) == Words(lang, s);
  }

  lemma {:induction false} JoinKeepsWords(lang: Language, separator: string, parts: seq<string>)
    requires IsBlank(lang, separator)
    ensures Words(lang, Join(separator, parts)) == WordsOfAll(lang, parts)
  {
    if |parts| == 1 {
      assert WordsOfAll(lang, parts) == [] + Words(lang, parts[0]);
    } else if |parts| > 1 {
      var last := |parts| - 1;
      JoinKeepsWords(lang, separator, parts[..last]);
      WordsAcross(lang, Join(separator, parts[..last]), separator, parts[last]);
    }
  }

  lemma {:induction false} WordsOfWords(lang: Language, words: seq<string>)
    requires forall i :: 0 <= i < |words| ==> IsWord(lang, words[i])
    ensures WordsOfAll(lang, words) == words
  {
    if words != [] {
      var last := |words| - 1;
      WordsOfWords(lang, words[..last]);
      WordIsItself(lang, words[last]);
    }
  }
}
