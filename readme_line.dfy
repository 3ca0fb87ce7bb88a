/** One line of the catsHTM README, as matched by the pattern
    `(?P<name>[\w/]+) \(input name: (?P<key>\w+)\)(\s*-\s*(?P<description>.*))?`
    with `re.match` (anchored at the start, not at the end). `[\w/]+`, `\w+`
    and the first `\s*` are each followed by a character they cannot consume,
    and the second `\s*` is followed by the trailing `.*`, which matches
    whatever is left. So the match is the one the maximal runs give: no
    backtracking has to be modelled. Character classes are the ASCII ones. */
module ReadmeLine {
  import opened Prelude

  /** `\w` */
  predicate IsWordChar(c: char)
  {
    ('a' <= c <= 'z') || ('A' <= c <= 'Z') || ('0' <= c <= '9') || c == '_'
  }

  /** `[\w/]` */
  predicate IsNameChar(c: char)
  {
    IsWordChar(c) || c == '/'
  }

  /** `\s`: space, tab, line feed, carriage return, vertical tab, form feed. */
  predicate IsSpace(c: char)
  {
    c == ' ' || c == '\t' || c == '\n' || c == '\r' || c as int == 11 || c as int == 12
  }

  /** `.`: anything but a line feed. */
  predicate IsLineChar(c: char)
  {
    c != '\n'
  }

  predicate All(s: string, p: char -> bool)
  {
    forall i :: 0 <= i < |s| ==> p(s[i])
  }

  /** The length of the longest prefix of s whose characters all satisfy p:
      what a greedy `p*` consumes. */
  function Span(s: string, p: char -> bool): (n: nat)
    ensures n <= |s|
    ensures All(s[..n], p)
    ensures n < |s| ==> !p(s[n])
  {
    if s == [] || !p(s[0]) then 0 else 1 + Span(s[1..], p)
  }

  /** A run of p-characters followed by something else is consumed exactly. */
  lemma {:induction false} SpanExact(s: string, t: string, p: char -> bool)
    requires All(s, p)
    requires t == [] || !p(t[0])
    ensures Span(s + t, p) == |s|
  {
    if s == [] {
      assert s + t == t;
    } else {
      assert (s + t)[0] == s[0];
      assert (s + t)[1..] == s[1..] + t;
      assert forall i :: 0 <= i < |s[1..]| ==> s[1..][i] == s[i + 1];
      SpanExact(s[1..], t, p);
    }
  }

  /** The two sides of a concatenation. */
  lemma Split<T>(a: seq<T>, b: seq<T>)
    ensures a <= a + b && (a + b)[..|a|] == a && (a + b)[|a|..] == b
  {
  }

  /** A run of p-characters alone is consumed whole. */
  lemma SpanAll(s: string, p: char -> bool)
    requires All(s, p)
    ensures Span(s, p) == |s|
  {
    assert s + [] == s;
    SpanExact(s, [], p);
  }

  const Marker: string := " (input name: "

  /** The groups of a successful match. */
  datatype Parsed = Parsed(key: string, display: string, description: Option<string>)

  /** `\s*(?P<description>.*)` after the dash. */
  function TextAfterDash(rest: string): string
  {
    var text := rest[Span(rest, IsSpace)..];
    text[..Span(text, IsLineChar)]
  }

  /** The optional tail `(\s*-\s*(?P<description>.*))?` after the closing
      parenthesis: None when the group does not match. */
  function DescriptionOf(tail: string): Option<string>
  {
    var a := Span(tail, IsSpace);
    if a == |tail| || tail[a] != '-' then None
    else Some(TextAfterDash(tail[a + 1..]))
  }

  /** ` \(input name: (?P<key>\w+)\)` right after the display name: the key
      and the rest of the line. */
  function KeyPart(rest: string): Option<(string, string)>
  {
    if !(Marker <= rest) then None
    else
      var after := rest[|Marker|..];
      var k := Span(after, IsWordChar);
      if k == 0 || k == |after| || after[k] != ')' then None
      else Some((after[..k], after[k + 1..]))
  }

  /** re.match of the README pattern against one stripped line. */
  function ParseLine(line: string): Option<Parsed>
  {
    var n := Span(line, IsNameChar);
    if n == 0 then None
    else match KeyPart(line[n..])
      case None => None
      case Some((key, tail)) => Some(Parsed(key, line[..n], DescriptionOf(tail)))
  }

  lemma KeyPartComplete(key: string, tail: string)
    requires |key| > 0 && All(key, IsWordChar)
    ensures KeyPart(Marker + key + ")" + tail) == Some((key, tail))
  {
    var close := ")" + tail;
    var after := key + close;
    assert Marker + key + ")" + tail == Marker + after;
    Split(Marker, after);
    Split(key, close);
    Split(")", tail);
    SpanExact(key, close, IsWordChar);
    assert after[|key| + 1..] == close[1..];
  }

  lemma KeyPartSound(rest: string)
    requires KeyPart(rest).Some?
    ensures var (key, tail) := KeyPart(rest).value;
      && |key| > 0 && All(key, IsWordChar)
      && rest == Marker + key + ")" + tail
      && tail == rest[|Marker| + |key| + 1..]
  {
    var after := rest[|Marker|..];
    var k := Span(after, IsWordChar);
    assert rest == Marker + after;
    assert after == after[..k] + ")" + after[k + 1..];
    assert after[k + 1..] == rest[|Marker| + k + 1..];
  }

  lemma SeqAssoc4(a: string, b: string, c: string, d: string, e: string)
    ensures a + (b + c + d + e) == a + b + c + d + e
  {
  }

  /** Every line of the form `name (input name: key)tail` matches, and its
      groups are name, key and the description of tail. */
  lemma ParseLineComplete(name: string, key: string, tail: string)
    requires |name| > 0 && All(name, IsNameChar)
    requires |key| > 0 && All(key, IsWordChar)
    ensures ParseLine(name + Marker + key + ")" + tail) == Some(Parsed(key, name, DescriptionOf(tail)))
  {
    var rest := Marker + key + ")" + tail;
    var line := name + Marker + key + ")" + tail;
    assert line == name + rest;
    SpanExact(name, rest, IsNameChar);
    assert line[|name|..] == rest && line[..|name|] == name;
    KeyPartComplete(key, tail);
  }

  /** Conversely a line that matches has that form: its display name and key
      are non-empty runs of name and word characters, and the description is the
      one of the text after the closing parenthesis. */
  lemma ParseLineSound(line: string)
    requires ParseLine(line).Some?
    ensures var p := ParseLine(line).value;
      var tail := line[|p.display| + |Marker| + |p.key| + 1..];
      && |p.display| > 0 && All(p.display, IsNameChar)
      && |p.key| > 0 && All(p.key, IsWordChar)
      && line == p.display + Marker + p.key + ")" + tail
      && p.description == DescriptionOf(tail)
  {
    var n := Span(line, IsNameChar);
    var rest := line[n..];
    KeyPartSound(rest);
    var (key, tail) := KeyPart(rest).value;
    var m := |Marker| + |key| + 1;
    assert line == line[..n] + rest;
    assert rest == Marker + key + ")" + tail;
    SeqAssoc4(line[..n], Marker, key, ")", tail);
    assert line[n + m..] == rest[m..];
  }

  /** The description group: after optional whitespace, a dash and optional
      whitespace, the text up to the end of the line. */
  lemma DescriptionComplete(pre: string, post: string, text: string)
    requires All(pre, IsSpace) && All(post, IsSpace)
    requires text == [] || !IsSpace(text[0])
    requires All(text, IsLineChar)
    ensures DescriptionOf(pre + "-" + post + text) == Some(text)
  {
    var tail := pre + "-" + post + text;
    assert tail == pre + ("-" + post + text);
    SpanExact(pre, "-" + post + text, IsSpace);
    assert tail[|pre|] == '-';
    assert tail[|pre| + 1..] == post + text;
    TextAfterDashSpec(post, text);
  }

  lemma TextAfterDashSpec(post: string, text: string)
    requires All(post, IsSpace)
    requires text == [] || !IsSpace(text[0])
    requires All(text, IsLineChar)
    ensures TextAfterDash(post + text) == text
  {
    SpanExact(post, text, IsSpace);
    assert (post + text)[|post|..] == text;
    SpanAll(text, IsLineChar);
    assert text[..|text|] == text;
  }

  /** Without a dash after the leading whitespace the optional group does not
      match and there is no description. */
  lemma DescriptionAbsent(pre: string, rest: string)
    requires All(pre, IsSpace)
    requires rest == [] || (rest[0] != '-' && !IsSpace(rest[0]))
    ensures DescriptionOf(pre + rest) == None
  {
    SpanExact(pre, rest, IsSpace);
    if rest != [] {
      assert (pre + rest)[|pre|] == rest[0];
    }
  }

  /** A line with no ` (input name: ` right after the display name does not match. */
  lemma NoMarkerNoMatch(name: string, tail: string)
    requires |name| > 0 && All(name, IsNameChar)
    requires tail == [] || !IsNameChar(tail[0])
    requires !(Marker <= tail)
    ensures ParseLine(name + tail) == None
  {
    SpanExact(name, tail, IsNameChar);
    assert (name + tail)[|name|..] == tail;
    assert KeyPart(tail) == None;
  }

  /** The description text of the `2MASSxsc` README entry. */
  const ExtendedSourceText: string := "2MASS extended source catalog"

  /** ` - ` before a description is dropped with its surrounding whitespace. */
  lemma ExampleDescription()
    ensures DescriptionOf(" - " + ExtendedSourceText) == Some(ExtendedSourceText)
  {
    assert " - " + ExtendedSourceText == " " + "-" + " " + ExtendedSourceText;
    assert ExtendedSourceText[0] == '2';
    assert All(ExtendedSourceText, IsLineChar);
    DescriptionComplete(" ", " ", ExtendedSourceText);
  }

  /** The `2MASSxsc` README entry: the key, not the display name, is the
      catalog's name, and the description follows the dash. */
  lemma ExampleWithDescription()
    ensures ParseLine("2MASSxsc" + Marker + "TMASSxsc" + ")" + " - " + ExtendedSourceText)
         == Some(Parsed("TMASSxsc", "2MASSxsc", Some(ExtendedSourceText)))
  {
    assert "2MASSxsc" + Marker + "TMASSxsc" + ")" + " - " + ExtendedSourceText
        == "2MASSxsc" + Marker + "TMASSxsc" + ")" + (" - " + ExtendedSourceText);
    ParseLineComplete("2MASSxsc", "TMASSxsc", " - " + ExtendedSourceText);
    ExampleDescription();
  }

  /** The `2MASS` README entry, which has no description. */
  lemma ExampleWithoutDescription()
    ensures ParseLine("2MASS" + Marker + "TMASS" + ")") == Some(Parsed("TMASS", "2MASS", None))
  {
    assert "2MASS" + Marker + "TMASS" + ")" + "" == "2MASS" + Marker + "TMASS" + ")";
    ParseLineComplete("2MASS", "TMASS", "");
  }

  /** A display name with a space in it does not match: `NED redshifts`. */
  const SpacedNameLine: string := "NED" + " redshifts (input name: NEDz)"

  lemma ExampleSpacedName()
    ensures ParseLine(SpacedNameLine) == None
  {
    assert " redshifts (input name: NEDz)"[1] != Marker[1];
    NoMarkerNoMatch("NED", " redshifts (input name: NEDz)");
  }

  /** An entry without the colon does not match: `Spitzer/SAGE`. */
  const MissingColonLine: string := "Spitzer/SAGE" + " (input name SAGE)"

  lemma ExampleMissingColon()
    ensures ParseLine(MissingColonLine) == None
  {
    assert " (input name SAGE)"[12] != Marker[12];
    NoMarkerNoMatch("Spitzer/SAGE", " (input name SAGE)");
  }

  /** The `Spitzer/IRAC` entry lacks the colon too, so it does not match either,
      although it has a description. */
  const IracLine: string := "Spitzer/IRAC" + IracTail

  const IracTail: string := " (input name IRACgc)" + " - Spitzer IRAC galactic center survey"

  lemma ExampleIracMissingColon()
    ensures ParseLine(IracLine) == None
  {
    assert IracTail[0] == " (input name IRACgc)"[0] == ' ';
    assert IracTail[12] == " (input name IRACgc)"[12] != Marker[12];
    NoMarkerNoMatch("Spitzer/IRAC", IracTail);
  }

  /** An entry without an input name does not match: `Skymapper`. */
  const NoInputNameLine: string := "Skymapper" + " - will be added soon."

  lemma ExampleNoInputName()
    ensures ParseLine(NoInputNameLine) == None
  {
    assert " - will be added soon."[1] != Marker[1];
    NoMarkerNoMatch("Skymapper", " - will be added soon.");
  }
}
