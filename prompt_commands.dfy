/**
 * `parsePromptAndCommands` of src/components/ImageGenerator.tsx: the style modifiers
 * `--ar W:H`, `--s N` and `--sref word` written inline in a prompt.
 *
 * Each regular expression is written out as a matcher anchored at the start of a
 * string, following the backtracking semantics of JavaScript regular expressions
 * (greedy quantifiers, alternatives tried left to right); searching
 * (`String.prototype.match`) and global replacement (`replace(/…/g, '')`) are
 * left-to-right scans over those anchored matchers.
 */
module PromptCommands {
  import opened Wrappers
  import opened Text

  datatype TagType = Ar | S | Sref

  /** One parsed modifier (`CommandTag` in the source). */
  datatype CommandTag = CommandTag(tagType: TagType, value: string)

  datatype ParsedPrompt = ParsedPrompt(basePrompt: string, commands: seq<CommandTag>)

  function FlagName(t: TagType): string {
    match t
    case Ar => "ar"
    case S => "s"
    case Sref => "sref"
  }

  /** Position of a tag in the fixed output order ar, s, sref. */
  function Rank(t: TagType): nat {
    match t
    case Ar => 0
    case S => 1
    case Sref => 2
  }

  /** The alternation `(?:ar|s|sref)`. */
  const AllFlags: seq<string> := ["ar", "s", "sref"]

  /** The alternation `(?:ar|s)` of the aspect-ratio and stylization handlers. */
  const AspectAndStyleFlags: seq<string> := ["ar", "s"]

  // ---------------------------------------------------------------------------
  // Removal pattern  /\s+--(?:<names>)\s+[^\s]+/g

  /** One alternative `name\s+[^\s]+` at the start of `r`: the length it consumes. */
  function FlagArgumentMatch(name: string, r: string): (m: Option<nat>)
    ensures m.Some? ==> |name| < m.value <= |r| && name <= r
  {
    if name <= r then
      var a := Span(r[|name|..], IsSpace);
      var b := Span(r[|name| + a..], IsNonSpace);
      if a > 0 && b > 0 then Some(|name| + a + b) else None
    else None
  }

  /** The alternation over `names` followed by `\s+[^\s]+`: the first alternative that lets the rest match wins. */
  function AlternativeMatch(names: seq<string>, r: string): (m: Option<nat>)
    ensures m.Some? ==> 0 < m.value <= |r|
  {
    if names == [] then None
    else match FlagArgumentMatch(names[0], r)
      case Some(n) => Some(n)
      case None => AlternativeMatch(names[1..], r)
  }

  /** `\s+--(?:<names>)\s+[^\s]+` anchored at the start of `s`: the length of the match. */
  function FlagMatch(names: seq<string>, s: string): (m: Option<nat>)
    ensures m.Some? ==> 0 < m.value <= |s| && IsSpace(s[0])
  {
    var w := Span(s, IsSpace);
    if w > 0 && "--" <= s[w..] then
      match AlternativeMatch(names, s[w + 2..])
      case Some(n) => Some(w + 2 + n)
      case None => None
    else None
  }

  /** `s.replace(/\s+--(?:<names>)\s+[^\s]+/g, '')`: every match, found left to right, deleted. */
  function RemoveFlags(names: seq<string>, s: string): (r: string)
    ensures |r| <= |s|
    decreases |s|
  {
    if s == [] then []
    else match FlagMatch(names, s)
      case Some(n) => RemoveFlags(names, s[n..])
      case None => [s[0]] + RemoveFlags(names, s[1..])
  }

  // ---------------------------------------------------------------------------
  // Capture patterns  /--ar\s+(\d+:\d+)/, /--s\s+(\d+)/, /--sref\s+(\w+)/

  /** The characters the last quantifier of the tag's capture group repeats. */
  predicate ValueChar(t: TagType, c: char) {
    match t
    case Ar => IsDigit(c)
    case S => IsDigit(c)
    case Sref => IsWordChar(c)
  }

  /** A string the capture group of tag `t` can produce: `\d+:\d+`, `\d+` or `\w+`. */
  predicate WellFormedValue(t: TagType, v: string) {
    match t
    case Ar =>
      var a := Span(v, IsDigit);
      0 < a && a + 1 < |v| && v[a] == ':' && All(v[a + 1..], IsDigit)
    case S => |v| > 0 && All(v, IsDigit)
    case Sref => |v| > 0 && All(v, IsWordChar)
  }

  /** The capture group of tag `t` at the start of `r`, each `+` greedy. */
  function ValueMatch(t: TagType, r: string): (m: Option<string>)
    ensures m.Some? ==> m.value <= r && WellFormedValue(t, m.value)
    ensures m.Some? ==> |m.value| == |r| || !ValueChar(t, r[|m.value|])
  {
    match t
    case Ar =>
      var a := Span(r, IsDigit);
      if 0 < a < |r| && r[a] == ':' then
        var b := Span(r[a + 1..], IsDigit);
        if b > 0 then
          var v := r[..a + 1 + b];
          assert v[..a] == r[..a] && v[a + 1..] == r[a + 1..][..b];
          SpanOfRun(r[..a], v[a..], IsDigit);
          assert r[..a] + v[a..] == v;
          Some(v)
        else None
      else None
    case S =>
      var a := Span(r, IsDigit);
      if a > 0 then Some(r[..a]) else None
    case Sref =>
      var a := Span(r, IsWordChar);
      if a > 0 then Some(r[..a]) else None
  }

  /** `--<flag>\s+(<value>)` anchored at the start of `s`: the captured value. */
  function TagMatch(t: TagType, s: string): (m: Option<string>)
    ensures m.Some? ==> "--" + FlagName(t) <= s && WellFormedValue(t, m.value)
  {
    var flag := "--" + FlagName(t);
    if flag <= s then
      var w := Span(s[|flag|..], IsSpace);
      if w > 0 then ValueMatch(t, s[|flag| + w..]) else None
    else None
  }

  /** `s.match(re)[1]` for the tag's (non-global) pattern: the capture of the leftmost match. */
  function FirstTagMatch(t: TagType, s: string): (m: Option<string>)
    ensures m.Some? ==> WellFormedValue(t, m.value)
    decreases |s|
  {
    if s == [] then None
    else if TagMatch(t, s).Some? then TagMatch(t, s)
    else FirstTagMatch(t, s[1..])
  }

  /** The command list entry for a capture that may be absent. */
  function TagIfMatched(t: TagType, m: Option<string>): seq<CommandTag> {
    if m.Some? then [CommandTag(t, m.value)] else []
  }

  /** The commands for three captures, in the fixed order ar, s, sref. */
  function Canonical(ar: Option<string>, s: Option<string>, sref: Option<string>): (c: seq<CommandTag>)
    ensures forall i, j :: 0 <= i < j < |c| ==> Rank(c[i].tagType) < Rank(c[j].tagType)
    ensures CommandFor(c, Ar) == ar && CommandFor(c, S) == s && CommandFor(c, Sref) == sref
    ensures forall i :: 0 <= i < |c| ==>
      || (ar.Some? && c[i] == CommandTag(Ar, ar.value))
      || (s.Some? && c[i] == CommandTag(S, s.value))
      || (sref.Some? && c[i] == CommandTag(Sref, sref.value))
  {
    CanonicalOrdered(ar, s, sref);
    CanonicalMembers(ar, s, sref);
    CanonicalLookup(ar, s, sref);
    TagIfMatched(Ar, ar) + TagIfMatched(S, s) + TagIfMatched(Sref, sref)
  }

  lemma CanonicalLookup(ar: Option<string>, s: Option<string>, sref: Option<string>)
    ensures var c := TagIfMatched(Ar, ar) + TagIfMatched(S, s) + TagIfMatched(Sref, sref);
      CommandFor(c, Ar) == ar && CommandFor(c, S) == s && CommandFor(c, Sref) == sref
  {
    var a, b, r := TagIfMatched(Ar, ar), TagIfMatched(S, s), TagIfMatched(Sref, sref);
    CommandForAppend(a, b + r, Ar);
    CommandForAppend(a, b + r, S);
    CommandForAppend(a, b + r, Sref);
    CommandForAppend(b, r, Ar);
    CommandForAppend(b, r, S);
    CommandForAppend(b, r, Sref);
    assert a + b + r == a + (b + r);
  }

  lemma CanonicalOrdered(ar: Option<string>, s: Option<string>, sref: Option<string>)
    ensures var c := TagIfMatched(Ar, ar) + TagIfMatched(S, s) + TagIfMatched(Sref, sref);
      forall i, j :: 0 <= i < j < |c| ==> Rank(c[i].tagType) < Rank(c[j].tagType)
  {
  }

  lemma CanonicalMembers(ar: Option<string>, s: Option<string>, sref: Option<string>)
    ensures var c := TagIfMatched(Ar, ar) + TagIfMatched(S, s) + TagIfMatched(Sref, sref);
      forall i :: 0 <= i < |c| ==>
        || (ar.Some? && c[i] == CommandTag(Ar, ar.value))
        || (s.Some? && c[i] == CommandTag(S, s.value))
        || (sref.Some? && c[i] == CommandTag(Sref, sref.value))
  {
  }

  /** The value of the first command of type `t`, if any. */
  function CommandFor(commands: seq<CommandTag>, t: TagType): Option<string> {
    if commands == [] then None
    else if commands[0].tagType == t then Some(commands[0].value)
    else CommandFor(commands[1..], t)
  }

  lemma {:induction false} CommandForAppend(a: seq<CommandTag>, b: seq<CommandTag>, t: TagType)
    ensures CommandFor(a + b, t) == if CommandFor(a, t).Some? then CommandFor(a, t) else CommandFor(b, t)
  {
    if a == [] {
      assert a + b == b;
    } else {
      assert (a + b)[1..] == a[1..] + b;
      CommandForAppend(a[1..], b, t);
    }
  }

  /** `parsePromptAndCommands` */
  function ParsePromptAndCommands(fullPrompt: string): (p: ParsedPrompt)
    ensures p.basePrompt == [] || (!IsSpace(p.basePrompt[0]) && !IsSpace(p.basePrompt[|p.basePrompt| - 1]))
    ensures forall i, j :: 0 <= i < j < |p.commands| ==> Rank(p.commands[i].tagType) < Rank(p.commands[j].tagType)
    ensures CommandFor(p.commands, Ar) == FirstTagMatch(Ar, fullPrompt)
    ensures CommandFor(p.commands, S) == FirstTagMatch(S, fullPrompt)
    ensures CommandFor(p.commands, Sref) == FirstTagMatch(Sref, fullPrompt)
    ensures forall i :: 0 <= i < |p.commands| ==> WellFormedValue(p.commands[i].tagType, p.commands[i].value)
  {
    var basePrompt := Trim(RemoveFlags(AllFlags, fullPrompt));
    var arMatch := FirstTagMatch(Ar, fullPrompt);
    var sMatch := FirstTagMatch(S, fullPrompt);
    var srefMatch := FirstTagMatch(Sref, fullPrompt);
    var commands := Canonical(arMatch, sMatch, srefMatch);
    ParsedPrompt(basePrompt, commands)
  }

  // ---------------------------------------------------------------------------
  // Properties of the parse

  /** The tag's pattern matches somewhere in `s`. */
  ghost predicate Occurs(t: TagType, s: string) {
    exists i :: 0 <= i < |s| && TagMatch(t, s[i..]).Some?
  }

  /** `match` reports a tag exactly when its pattern occurs, and then takes the leftmost occurrence. */
  lemma {:induction false} FirstTagMatchIsLeftmost(t: TagType, s: string)
    ensures FirstTagMatch(t, s).Some? <==> Occurs(t, s)
    ensures FirstTagMatch(t, s).Some? ==>
      exists i :: 0 <= i < |s| && TagMatch(t, s[i..]) == FirstTagMatch(t, s)
        && forall j :: 0 <= j < i ==> TagMatch(t, s[j..]).None?
  {
    if FirstTagMatch(t, s).Some? {
      var i := FirstTagMatchFound(t, s);
      assert TagMatch(t, s[i..]).Some?;
    } else {
      FirstTagMatchNone(t, s);
    }
  }

  /** Where `match` finds nothing, the pattern matches at no position. */
  lemma {:induction false} FirstTagMatchNone(t: TagType, s: string)
    requires FirstTagMatch(t, s).None?
    ensures forall i :: 0 <= i < |s| ==> TagMatch(t, s[i..]).None?
    decreases |s|
  {
    if s != [] {
      assert s[0..] == s;
      var tail := s[1..];
      FirstTagMatchNone(t, tail);
      forall i | 0 <= i < |s| ensures TagMatch(t, s[i..]).None? {
        if i > 0 {
          assert s[i..] == tail[i - 1..];
        }
      }
    }
  }

  /** Where `match` finds a capture, it is the one at the first position `i` where the pattern matches. */
  lemma {:induction false} FirstTagMatchFound(t: TagType, s: string) returns (i: nat)
    requires FirstTagMatch(t, s).Some?
    ensures i < |s| && TagMatch(t, s[i..]) == FirstTagMatch(t, s)
    ensures forall j :: 0 <= j < i ==> TagMatch(t, s[j..]).None?
    decreases |s|
  {
    assert s[0..] == s;
    if TagMatch(t, s).Some? {
      i := 0;
    } else {
      var tail := s[1..];
      var k := FirstTagMatchFound(t, tail);
      i := k + 1;
      assert s[i..] == tail[k..];
      forall j | 0 <= j < i ensures TagMatch(t, s[j..]).None? {
        if j > 0 {
          assert s[j..] == tail[j - 1..];
        }
      }
    }
  }

  /** No two consecutive `-` in `s`: no modifier flag can start anywhere in it. */
  predicate NoDoubleDash(s: string) {
    forall i :: 0 <= i < |s| - 1 ==> !(s[i] == '-' && s[i + 1] == '-')
  }

  /** A character that is not whitespace is never the start of a removed match. */
  lemma LeadingNonSpaceKept(names: seq<string>, c: char, s: string)
    requires !IsSpace(c)
    ensures RemoveFlags(names, [c] + s) == [c] + RemoveFlags(names, s)
  {
    assert ([c] + s)[1..] == s;
  }

  /** A prompt without `--` comes back from the removal unchanged. */
  lemma {:induction false} RemoveFlagsWithoutDashes(names: seq<string>, s: string)
    requires NoDoubleDash(s)
    ensures RemoveFlags(names, s) == s
    decreases |s|
  {
    if s != [] {
      var w := Span(s, IsSpace);
      assert !(w > 0 && "--" <= s[w..]) by {
        if w + 1 < |s| {
          assert !(s[w] == '-' && s[w + 1] == '-');
        }
      }
      assert FlagMatch(names, s).None?;
      RemoveFlagsWithoutDashes(names, s[1..]);
      assert [s[0]] + s[1..] == s;
    }
  }
}
