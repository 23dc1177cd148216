/**
 * PROFILE.md: rendering the managed sections into a text (sera/profile.py) and reading them back
 * (sera/profile_learning.py). The regular expressions are spelled out as the searches they perform.
 */
module Profile {
  import opened Text
  import opened Wrappers

  const HEADER := "# User Profile"

  const KEYS: seq<string> := ["style", "tooling", "workflow", "vetoes", "current-priorities"]
  const TITLES: seq<string> := ["Style", "Tooling", "Workflow", "Vetoes", "Current priorities"]

  type Sections = map<string, seq<string>>

  function Start(key: string): string {
    "<!-- sera:" + key + ":start -->"
  }

  function End(key: string): string {
    "<!-- sera:" + key + ":end -->"
  }

  // ---------- the program ----------

  function Bullets(items: seq<string>): seq<string> {
    seq(|items|, i requires 0 <= i < |items| => "- " + items[i])
  }

  // What stands between the two markers of a managed block.
  function Body(title: string, items: seq<string>): string {
    "\n## " + title + "\n\n" + (if items == [] then "-" else Join("\n", Bullets(items))) + "\n"
  }

  // _managed_block.
  function ManagedBlock(key: string, title: string, items: seq<string>): string {
    Start(key) + Body(title, items) + End(key)
  }

  // START.*?END: where the leftmost match starts and ends.
  function Search(text: string, key: string): (r: Option<(nat, nat)>)
    ensures r.Some? ==> r.value.0 < r.value.1 <= |text|
  {
    var i := Find(text, Start(key));
    if i.None? then None else
      OccurrenceFits(text, Start(key), i.value);
      SearchEnd(text, key, i.value)
  }

  function SearchEnd(text: string, key: string, i: nat): (r: Option<(nat, nat)>)
    requires i + |Start(key)| <= |text|
    ensures r.Some? ==> r.value.0 < r.value.1 <= |text|
  {
    var after := i + |Start(key)|;
    var j := Find(text[after..], End(key));
    if j.None? then None else
      OccurrenceFits(text[after..], End(key), j.value);
      Some((i, after + j.value + |End(key)|))
  }

  // Every match replaced by the block as it is, from the left.
  function Substitute(text: string, key: string, block: string): string
    decreases |text|
  {
    var at := Search(text, key);
    if at.None? then text
    else text[..at.value.0] + block + Substitute(text[at.value.1..], key, block)
  }

  // _upsert_managed_block.
  function Upsert(text: string, key: string, block: string): string {
    if Search(text, key).Some? then Substitute(text, key, block)
    else Padded(text, block)
  }

  function Padded(text: string, block: string): string {
    text + (if text != "" && text[|text| - 1] == '\n' then "" else "\n") + "\n" + block + "\n"
  }

  function ItemsFor(sections: Sections, key: string): seq<string> {
    if key in sections then sections[key] else []
  }

  function UpsertFirst(text: string, sections: Sections, n: nat): string
    requires n <= |KEYS|
  {
    if n == 0 then text else
      Upsert(UpsertFirst(text, sections, n - 1), KEYS[n - 1],
             ManagedBlock(KEYS[n - 1], TITLES[n - 1], ItemsFor(sections, KEYS[n - 1])))
  }

  predicate Contains(text: string, part: string) {
    Find(text, part).Some?
  }

  function Headed(text: string): string {
    if text == "" then HEADER
    else if Contains(text, HEADER) then text
    else HEADER + "\n\n" + text
  }

  function Rendered(existing: string, sections: Sections): string {
    StripRight(Python, UpsertFirst(Headed(Strip(Python, existing)), sections, |KEYS|)) + "\n"
  }

  // ---------- the program, replacement templates included ----------

  // What pattern.sub puts in place of a match: it expands the escapes of the block, or None for a bad one.
  type Template = (string, string) -> Option<string>

  // pattern.sub.
  function SubstituteWith(expand: Template, text: string, key: string, block: string): Option<string>
    decreases |text|
  {
    var at := Search(text, key);
    if at.None? then Some(text) else
      var here := expand(block, text[at.value.0..at.value.1]);
      var rest := SubstituteWith(expand, text[at.value.1..], key, block);
      if here.None? || rest.None? then None else Some(text[..at.value.0] + here.value + rest.value)
  }

  function UpsertWith(expand: Template, text: string, key: string, block: string): Option<string> {
    if Search(text, key).Some? then SubstituteWith(expand, text, key, block) else Some(Padded(text, block))
  }

  function UpsertFirstWith(expand: Template, text: string, sections: Sections, n: nat): Option<string>
    requires n <= |KEYS|
  {
    if n == 0 then Some(text) else
      var before := UpsertFirstWith(expand, text, sections, n - 1);
      if before.None? then None else
        UpsertWith(expand, before.value, KEYS[n - 1],
                   ManagedBlock(KEYS[n - 1], TITLES[n - 1], ItemsFor(sections, KEYS[n - 1])))
  }

  function RenderedWith(expand: Template, existing: string, sections: Sections): Option<string> {
    var text := UpsertFirstWith(expand, Headed(Strip(Python, existing)), sections, |KEYS|);
    if text.None? then None else Some(StripRight(Python, text.value) + "\n")
  }

  // `standard` stands for default_profile_sections(), which fills in for sections that are missing or empty. None
  // stands for the exception that a bad escape raises.
  method RenderProfile(expand: Template, existing: string, given: Sections, standard: Sections)
    returns (rendered: Option<string>)
    ensures rendered == RenderedWith(expand, existing, if given == map[] then standard else given)
  {
    hide UpsertWith, ManagedBlock, Strip, StripRight, Contains;
    var sections := if |given| == 0 then standard else given;
    var text := Strip(Python, existing);
    if text == "" {
      text := HEADER;
    } else if !Contains(text, HEADER) {
      text := HEADER + "\n\n" + text;
    }
    ghost var headed := text;
    for i := 0 to |KEYS|
      invariant UpsertFirstWith(expand, headed, sections, i) == Some(text)
    {
      var items := if KEYS[i] in sections then sections[KEYS[i]] else [];
      var next := UpsertWith(expand, text, KEYS[i], ManagedBlock(KEYS[i], TITLES[i], items));
      if next.None? {
        UpsertStaysNone(expand, headed, sections, i + 1, |KEYS|);
        return None;
      }
      text := next.value;
    }
    rendered := Some(StripRight(Python, text) + "\n");
  }

  lemma {:induction false} UpsertStaysNone(expand: Template, text: string, sections: Sections, m: nat, n: nat)
    requires m <= n <= |KEYS| && UpsertFirstWith(expand, text, sections, m).None?
    ensures UpsertFirstWith(expand, text, sections, n).None?
  {
    if m < n {
      UpsertStaysNone(expand, text, sections, m, n - 1);
    }
  }

  // ---------- blocks without a backslash ----------

  ghost predicate PlainTemplates(expand: Template) {
    forall block, match_ :: '\\' !in block ==> expand(block, match_) == Some(block)
  }

  predicate Literal(sections: Sections) {
    forall i, item :: 0 <= i < |KEYS| && item in ItemsFor(sections, KEYS[i]) ==> '\\' !in item
  }

  lemma {:induction false} NotInJoin(c: char, parts: seq<string>)
    requires c != '\n' && forall part :: part in parts ==> c !in part
    ensures c !in Join("\n", parts)
  {
    if parts != [] {
      NotInJoin(c, parts[..|parts| - 1]);
    }
  }

  lemma NotInBody(c: char, i: nat, items: seq<string>)
    requires i < |KEYS| && c !in "\n#- " && c !in TITLES[i] && forall item :: item in items ==> c !in item
    ensures c !in Body(TITLES[i], items)
  {
    hide Join;
    forall part | part in Bullets(items) ensures c !in part {
      var k :| 0 <= k < |items| && part == "- " + items[k];
    }
    NotInJoin(c, Bullets(items));
  }

  lemma NoBackslashInTitles(i: nat)
    requires i < |KEYS|
    ensures '\\' !in TITLES[i] && '\\' !in Start(KEYS[i]) && '\\' !in End(KEYS[i])
  {}

  lemma {:induction false} LiteralSubstitute(expand: Template, text: string, key: string, block: string)
    requires PlainTemplates(expand) && '\\' !in block
    ensures SubstituteWith(expand, text, key, block) == Some(Substitute(text, key, block))
    decreases |text|
  {
    var at := Search(text, key);
    if at.Some? {
      LiteralSubstitute(expand, text[at.value.1..], key, block);
    }
  }

  lemma {:induction false} LiteralUpserts(expand: Template, text: string, sections: Sections, n: nat)
    requires PlainTemplates(expand) && Literal(sections) && n <= |KEYS|
    ensures UpsertFirstWith(expand, text, sections, n) == Some(UpsertFirst(text, sections, n))
  {
    hide Search, Body, Substitute, SubstituteWith, Padded, Start, End;
    if n > 0 {
      LiteralUpserts(expand, text, sections, n - 1);
      var items := ItemsFor(sections, KEYS[n - 1]);
      NoBackslashInTitles(n - 1);
      NotInBody('\\', n - 1, items);
      LiteralSubstitute(expand, UpsertFirst(text, sections, n - 1), KEYS[n - 1],
          ManagedBlock(KEYS[n - 1], TITLES[n - 1], items));
    }
  }

  // Where no item has a backslash, rendering never fails and takes every item literally.
  lemma LiteralRenders(expand: Template, existing: string, sections: Sections)
    requires PlainTemplates(expand) && Literal(sections)
    ensures RenderedWith(expand, existing, sections) == Some(Rendered(existing, sections))
  {
    hide *;
    RenderedIs(expand, existing, sections);
    LiteralUpserts(expand, Headed(Strip(Python, existing)), sections, |KEYS|);
  }

  lemma RenderedIs(expand: Template, existing: string, sections: Sections)
    ensures var headed := Headed(Strip(Python, existing));
            var text := UpsertFirstWith(expand, headed, sections, |KEYS|);
            && RenderedWith(expand, existing, sections) ==
               (if text.None? then None else Some(StripRight(Python, text.value) + "\n"))
            && Rendered(existing, sections) == StripRight(Python, UpsertFirst(headed, sections, |KEYS|)) + "\n"
  {}

  // str.splitlines.
  predicate IsLineBreak(c: char) {
    var n := c as int;
    0x0A <= n <= 0x0D || 0x1C <= n <= 0x1E || n == 0x85 || n == 0x2028 || n == 0x2029
  }

  // Where str.splitlines breaks: line feed, tabulation and form feeds, carriage return, three separators, and the
  // line breaks of Unicode.
  lemma LineBreaksAre(c: char)
    ensures IsLineBreak(c) <==> c as int in {10, 11, 12, 13, 28, 29, 30, 133, 8232, 8233}
  {}

  function LineLength(s: string): (n: nat)
    ensures n <= |s|
    ensures forall i :: 0 <= i < n ==> !IsLineBreak(s[i])
    ensures n < |s| ==> IsLineBreak(s[n])
  {
    if s == "" || IsLineBreak(s[0]) then 0 else 1 + LineLength(s[1..])
  }

  function SplitLines(s: string): seq<string>
    decreases |s|
  {
    if s == "" then [] else
      var n := LineLength(s);
      if n == |s| then [s]
      else [s[..n]] + SplitLines(s[if s[n] == '\r' && n + 1 < |s| && s[n + 1] == '\n' then n + 2 else n + 1..])
  }

  function ItemsOf(lines: seq<string>): seq<string> {
    if lines == [] then [] else
      var line := Strip(Python, lines[|lines| - 1]);
      ItemsOf(lines[..|lines| - 1]) + if "- " <= line then [Strip(Python, line[2..])] else []
  }

  // START.*?\n(.*?)END: the group of the leftmost match.
  function ReadBlock(text: string, key: string): Option<string> {
    var i := Find(text, Start(key));
    if i.None? then None else
      OccurrenceFits(text, Start(key), i.value);
      var after := text[i.value + |Start(key)|..];
      var n := Find(after, "\n");
      if n.None? then None else
        OccurrenceFits(after, "\n", n.value);
        var body := after[n.value + 1..];
        var j := Find(body, End(key));
        if j.None? then None else
          OccurrenceFits(body, End(key), j.value);
          Some(body[..j.value])
  }

  function ReadSection(text: string, key: string, standard: seq<string>): seq<string> {
    var block := ReadBlock(text, key);
    var items := if block.None? then [] else ItemsOf(SplitLines(block.value));
    if items == [] then standard else items
  }

  method CurrentProfileSections(text: string, standard: Sections) returns (sections: Sections)
    requires forall key :: key in KEYS ==> key in standard
    ensures sections.Keys == standard.Keys
    ensures forall key :: key in standard ==>
              sections[key] == if key in KEYS then ReadSection(text, key, standard[key]) else standard[key]
  {
    hide ReadBlock, ItemsOf, SplitLines, ReadSection, KEYS;
    sections := standard;
    for i := 0 to |KEYS|
      invariant sections.Keys == standard.Keys
      invariant forall key :: key in standard ==>
                  sections[key] == if key in KEYS[..i] then ReadSection(text, key, standard[key]) else standard[key]
    {
      var key := KEYS[i];
      assert KEYS[..i + 1] == KEYS[..i] + [key];
      KeysDiffer(i);
      SectionIs(text, key, standard[key]);
      var block := ReadBlock(text, key);
      if block.Some? {
        var items := ItemsOf(SplitLines(block.value));
        if items != [] {
          sections := sections[key := items];
        }
      }
    }
    assert KEYS[..|KEYS|] == KEYS;
  }

  lemma SectionIs(text: string, key: string, standard: seq<string>)
    ensures ReadSection(text, key, standard) ==
            var block := ReadBlock(text, key);
            if block.None? || ItemsOf(SplitLines(block.value)) == [] then standard else ItemsOf(SplitLines(block.value))
  {}

  lemma KeysDiffer(i: nat)
    requires i < |KEYS|
    ensures KEYS[i] !in KEYS[..i]
  {
    assert |KEYS[0]| == 5 && |KEYS[1]| == 7 && |KEYS[2]| == 8 && |KEYS[3]| == 6 && |KEYS[4]| == 18;
  }

  // ---------- markers ----------

  predicate IsMarker(m: string) {
    exists key :: key in KEYS && (m == Start(key) || m == End(key))
  }

  predicate PlainKey(key: string) {
    forall i :: 0 <= i < |key| ==> key[i] !in "<>\n#"
  }

  lemma KeysArePlain(key: string)
    requires key in KEYS
    ensures PlainKey(key)
  {
    assert PlainKey("style");
    assert PlainKey("tooling");
    assert PlainKey("workflow");
    assert PlainKey("vetoes");
    assert PlainKey("current-priorities");
  }

  lemma MarkerIs(key: string, kind: string)
    requires PlainKey(key) && (kind == ":start --" || kind == ":end --")
    ensures var m := "<!-- sera:" + key + kind + ">";
            && |m| > 1 && m[0] == '<' && m[|m| - 1] == '>'
            && (forall i :: 0 < i < |m| ==> m[i] != '<')
            && (forall i :: 0 <= i < |m| - 1 ==> m[i] != '>')
            && (forall i :: 0 <= i < |m| ==> m[i] != '\n' && m[i] != '#')
            && (kind == ":start --" ==> m == Start(key))
            && (kind == ":end --" ==> m == End(key))
  {
    assert PlainKey("!-- sera:") && PlainKey(kind);
    Bracketed("!-- sera:", key, kind);
    assert "<" + "!-- sera:" == "<!-- sera:";
    assert kind == ":start --" ==> kind + ">" == ":start -->";
    assert kind == ":end --" ==> kind + ">" == ":end -->";
    assert ("<!-- sera:" + key + kind) + ">" == "<!-- sera:" + key + (kind + ">");
  }

  lemma Bracketed(a: string, b: string, c: string)
    requires PlainKey(a) && PlainKey(b) && PlainKey(c)
    ensures var m := ("<" + a) + b + c + ">";
            && |m| > 1 && m[0] == '<' && m[|m| - 1] == '>'
            && (forall i :: 0 < i < |m| ==> m[i] != '<')
            && (forall i :: 0 <= i < |m| - 1 ==> m[i] != '>')
            && (forall i :: 0 <= i < |m| ==> m[i] != '\n' && m[i] != '#')
  {
    var middle := a + b + c;
    assert forall i :: 0 <= i < |middle| ==>
      middle[i] == if i < |a| then a[i] else if i < |a| + |b| then b[i - |a|] else c[i - |a| - |b|];
    assert PlainKey(middle);
    assert ("<" + a) + b + c + ">" == "<" + middle + ">";
  }

  lemma MarkerShape(m: string)
    requires IsMarker(m)
    ensures |m| > 1 && m[0] == '<' && m[|m| - 1] == '>'
    ensures forall i :: 0 < i < |m| ==> m[i] != '<'
    ensures forall i :: 0 <= i < |m| - 1 ==> m[i] != '>'
    ensures forall i :: 0 <= i < |m| ==> m[i] != '\n' && m[i] != '#'
  {
    var key :| key in KEYS && (m == Start(key) || m == End(key));
    KeysArePlain(key);
    if m == Start(key) {
      MarkerIs(key, ":start --");
    } else {
      MarkerIs(key, ":end --");
    }
  }

  // One marker is never the beginning of another marker's text.
  lemma MarkersDiffer(m: string, n: string, t: string)
    requires IsMarker(m) && IsMarker(n) && m <= n + t
    ensures m == n
  {
    MarkerShape(m);
    MarkerShape(n);
    assert (n + t)[|m| - 1] == '>' && (n + t)[|n| - 1] == '>';
    assert |n| <= |m| ==> m[|n| - 1] == '>';
    assert |m| <= |n| ==> n[|m| - 1] == '>';
  }

  lemma StartsAndEndsDiffer(a: string, b: string)
    ensures Start(a) == Start(b) <==> a == b
    ensures End(a) == End(b) <==> a == b
    ensures Start(a) != End(b)
  {
    assert Start(a)[10..|Start(a)| - 10] == a && Start(b)[10..|Start(b)| - 10] == b;
    assert End(a)[10..|End(a)| - 8] == a && End(b)[10..|End(b)| - 8] == b;
    assert Start(a)[|Start(a)| - 5] == 't' && End(b)[|End(b)| - 5] == 'd';
  }

  ghost predicate Free(s: string) {
    forall m, i :: IsMarker(m) ==> !OccursAt(s, m, i)
  }

  lemma OccursIn(s: string, m: string, i: int)
    requires OccursAt(s, m, i)
    ensures i + |m| <= |s| && forall j :: 0 <= j < |m| ==> s[i + j] == m[j]
  {
    assert forall j :: 0 <= j < |m| ==> s[i..][j] == s[i + j];
  }

  lemma OccursIf(s: string, m: string, i: nat)
    requires i + |m| <= |s| && forall j :: 0 <= j < |m| ==> s[i + j] == m[j]
    ensures OccursAt(s, m, i)
  {
    assert s[i..][..|m|] == m;
  }

  function Shift(n: nat, r: Option<nat>): Option<nat> {
    if r.None? then None else Some(n + r.value)
  }

  lemma OccursBeyond(a: string, t: string, m: string, i: nat)
    requires i <= |t|
    ensures OccursAt(a + t, m, |a| + i) <==> OccursAt(t, m, i)
  {
    assert (a + t)[|a| + i..] == t[i..];
  }

  // Where nothing is found that starts in the first part, the search goes on in the second.
  lemma FindBeyond(a: string, t: string, m: string)
    requires forall i :: 0 <= i < |a| ==> !OccursAt(a + t, m, i)
    ensures Find(a + t, m) == Shift(|a|, Find(t, m))
  {
    hide Find, OccursAt;
    forall i | 0 <= i <= |t| ensures OccursAt(a + t, m, |a| + i) <==> OccursAt(t, m, i) {
      OccursBeyond(a, t, m, i);
    }
    if Find(a + t, m).Some? {
      OccurrenceFits(a + t, m, Find(a + t, m).value);
    }
    if Find(t, m).Some? {
      OccurrenceFits(t, m, Find(t, m).value);
    }
    var here, there := Find(a + t, m), Find(t, m);
    if there.Some? {
      forall j | 0 <= j < |a| + there.value ensures !OccursAt(a + t, m, j) {
        if j >= |a| {
          assert !OccursAt(t, m, j - |a|);
        }
      }
      FindIsLeftmost(a + t, m, |a| + there.value);
    }
    assert here.Some? && here.value >= |a| ==> OccursAt(t, m, here.value - |a|);
  }

  lemma CrossingMeets(a: string, t: string, m: string, i: nat)
    requires i < |a| && i + |m| <= |a + t| && forall j :: 0 <= j < |m| ==> (a + t)[i + j] == m[j]
    ensures |a| < i + |m| ==> t != "" && m[|a| - i] == t[0]
  {
    assert |a| < i + |m| ==> (a + t)[i + (|a| - i)] == m[|a| - i];
  }

  lemma MarkerBeyondText(a: string, t: string, m: string)
    requires Free(a) && IsMarker(m) && (t == "" || t[0] == '<')
    ensures Find(a + t, m) == Shift(|a|, Find(t, m))
  {
    hide IsMarker, OccursAt;
    MarkerShape(m);
    forall i | 0 <= i < |a| ensures !OccursAt(a + t, m, i) {
      if OccursAt(a + t, m, i) {
        OccursIn(a + t, m, i);
        CrossingMeets(a, t, m, i);
        OccursIf(a, m, i);
      }
    }
    FindBeyond(a, t, m);
  }

  lemma MarkerBeyondMarker(n: string, t: string, m: string)
    requires IsMarker(m) && IsMarker(n) && m != n
    ensures Find(n + t, m) == Shift(|n|, Find(t, m))
  {
    MarkerShape(m);
    MarkerShape(n);
    forall i | 0 <= i < |n| ensures !OccursAt(n + t, m, i) {
      if OccursAt(n + t, m, i) {
        OccursIn(n + t, m, i);
        assert (n + t)[i] == n[i] == '<';
        assert (n + t)[0..] == n + t;
        MarkersDiffer(m, n, t);
      }
    }
    FindBeyond(n, t, m);
  }

  lemma MarkerHere(m: string, t: string)
    ensures Find(m + t, m) == Some(0)
  {
    assert (m + t)[0..] == m + t;
    FindIsLeftmost(m + t, m, 0);
  }
}
