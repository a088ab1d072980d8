/**
 * The four settings handlers of src/components/ImageGenerator.tsx that rebuild the prompt
 * text from the aspect-ratio, stylization and style-reference settings, and the round
 * trip between rebuilding and `parsePromptAndCommands`.
 *
 * A rebuilt prompt has the shape `base + Render(commands)`: a text without `--`,
 * followed by one ` --<flag> <value>` piece per set modifier.
 */
module PromptSettings {
  import opened Wrappers
  import opened Text
  import opened PromptCommands

  /** The prompt text and the modifier settings the component keeps in React state. */
  datatype Settings = Settings(
    prompt: string,
    aspectRatio: string,
    stylization: int,
    styleReference: string,
    isRandomStyle: bool)

  /** The `--sref` value the random-style checkbox writes. */
  const RandomStyle: string := "random"

  function AspectRatioCommand(ratio: string): string {
    if ratio != "" then " --ar " + ratio else ""
  }

  function StylizationCommand(value: int): string {
    if value > 0 then " --s " + DecimalString(value) else ""
  }

  function StyleReferenceCommand(value: string): string {
    if value != "" then " --sref " + value else ""
  }

  /** `handleAspectRatioChange`: strips `--ar`/`--s` (not `--sref`), then appends aspect ratio and
    * stylization, rendered as modifier pieces; only the ratio setting and the prompt change. */
  function HandleAspectRatioChange(st: Settings, ratio: string): (r: Settings)
    ensures r == st.(aspectRatio := ratio, prompt := r.prompt)
    ensures r.prompt == RemoveFlags(AspectAndStyleFlags, st.prompt) + Render(SettingsCommands(ratio, st.stylization, ""))
  {
    var basePrompt := RemoveFlags(AspectAndStyleFlags, st.prompt);
    SettingsSuffixIsRendered(ratio, st.stylization, "");
    ConcatAssoc(basePrompt, AspectRatioCommand(ratio), StylizationCommand(st.stylization));
    st.(aspectRatio := ratio,
        prompt := basePrompt + AspectRatioCommand(ratio) + StylizationCommand(st.stylization))
  }

  /** `handleStylizationChange`: likewise, with the new stylization. */
  function HandleStylizationChange(st: Settings, value: int): (r: Settings)
    ensures r == st.(stylization := value, prompt := r.prompt)
    ensures r.prompt == RemoveFlags(AspectAndStyleFlags, st.prompt) + Render(SettingsCommands(st.aspectRatio, value, ""))
  {
    var basePrompt := RemoveFlags(AspectAndStyleFlags, st.prompt);
    SettingsSuffixIsRendered(st.aspectRatio, value, "");
    ConcatAssoc(basePrompt, AspectRatioCommand(st.aspectRatio), StylizationCommand(value));
    st.(stylization := value,
        prompt := basePrompt + AspectRatioCommand(st.aspectRatio) + StylizationCommand(value))
  }

  /** `handleStyleReferenceChange`: strips all three flags, then appends all three settings. */
  function HandleStyleReferenceChange(st: Settings, value: string): (r: Settings)
    ensures r == st.(styleReference := value, prompt := r.prompt)
    ensures r.prompt == RemoveFlags(AllFlags, st.prompt) + Render(SettingsCommands(st.aspectRatio, st.stylization, value))
  {
    var basePrompt := RemoveFlags(AllFlags, st.prompt);
    SettingsSuffixIsRendered(st.aspectRatio, st.stylization, value);
    ConcatAssoc(basePrompt, AspectRatioCommand(st.aspectRatio), StylizationCommand(st.stylization));
    ConcatAssoc(basePrompt, AspectRatioCommand(st.aspectRatio) + StylizationCommand(st.stylization), StyleReferenceCommand(value));
    st.(styleReference := value,
        prompt := basePrompt + AspectRatioCommand(st.aspectRatio) + StylizationCommand(st.stylization)
                  + StyleReferenceCommand(value))
  }

  /** `handleRandomStyleToggle`: checking it sets the style reference to `random`, unchecking clears it. */
  function HandleRandomStyleToggle(st: Settings, checked: bool): (r: Settings)
    ensures var reference := if checked then RandomStyle else "";
      && r == st.(isRandomStyle := checked, styleReference := reference, prompt := r.prompt)
      && r.prompt == RemoveFlags(AllFlags, st.prompt) + Render(SettingsCommands(st.aspectRatio, st.stylization, reference))
  {
    if checked then
      HandleStyleReferenceChange(st.(isRandomStyle := true), RandomStyle)
    else
      var basePrompt := RemoveFlags(AllFlags, st.prompt);
      SettingsSuffixIsRendered(st.aspectRatio, st.stylization, "");
      ConcatAssoc(basePrompt, AspectRatioCommand(st.aspectRatio), StylizationCommand(st.stylization));
      st.(isRandomStyle := false, styleReference := "",
          prompt := basePrompt + AspectRatioCommand(st.aspectRatio) + StylizationCommand(st.stylization))
  }

  // ---------------------------------------------------------------------------
  // Rendered modifiers

  /** The text ` --<flag> <value>` a handler appends for one modifier. */
  function Piece(c: CommandTag): string {
    " --" + FlagName(c.tagType) + " " + c.value
  }

  function Render(commands: seq<CommandTag>): string {
    if commands == [] then [] else Piece(commands[0]) + Render(commands[1..])
  }

  predicate WellFormedCommands(commands: seq<CommandTag>) {
    forall i :: 0 <= i < |commands| ==> WellFormedValue(commands[i].tagType, commands[i].value)
  }

  /** The modifiers a handler appends for these settings, `""` and `0` meaning unset. */
  function SettingsCommands(ratio: string, stylization: int, reference: string): seq<CommandTag> {
    Canonical(
      if ratio != "" then Some(ratio) else None,
      if stylization > 0 then Some(DecimalString(stylization)) else None,
      if reference != "" then Some(reference) else None)
  }

  /** Whether the removal alternation `names`, one of the two the handlers use, deletes a piece of type `t`:
    * `(?:ar|s|sref)` deletes every piece, `(?:ar|s)` all but `--sref`. */
  predicate Removes(names: seq<string>, t: TagType) {
    names == AllFlags || t != Sref
  }

  /** The commands whose pieces survive the removal with alternation `names`. */
  function Kept(names: seq<string>, commands: seq<CommandTag>): seq<CommandTag> {
    if commands == [] then []
    else (if Removes(names, commands[0].tagType) then [] else [commands[0]]) + Kept(names, commands[1..])
  }


  // ---------------------------------------------------------------------------
  // Shape of the pieces

  /** `Removes` is membership of the piece's flag name in the alternation. */
  lemma {:induction false} RemovesIsMembership(names: seq<string>, t: TagType)
    requires names == AllFlags || names == AspectAndStyleFlags
    ensures Removes(names, t) <==> FlagName(t) in names
  {
    assert names[0] == "ar" && names[1] == "s";
    if names == AllFlags {
      assert names[2] == "sref";
    } else {
      assert "sref" != "ar" && "sref" != "s";
    }
  }

  /** A value the three capture patterns accept holds no `-` and no whitespace. */
  predicate PlainValue(v: string) {
    |v| > 0 && forall i :: 0 <= i < |v| ==> v[i] != '-' && !IsSpace(v[i])
  }

  lemma {:induction false} WellFormedValueIsPlain(t: TagType, v: string)
    requires WellFormedValue(t, v)
    ensures PlainValue(v)
  {
    match t
    case Ar =>
      var a := Span(v, IsDigit);
      forall i | 0 <= i < |v| ensures v[i] != '-' && !IsSpace(v[i]) {
        if i < a {
          assert v[..a][i] == v[i];
        } else if i > a {
          assert v[a + 1..][i - a - 1] == v[i];
        }
      }
    case S =>
    case Sref =>
  }

  lemma {:induction false} PrefixChars(p: string, s: string)
    ensures p <= s ==> |p| <= |s| && forall i :: 0 <= i < |p| ==> s[i] == p[i]
  {
    if p <= s {
      assert s[..|p|] == p;
      forall i | 0 <= i < |p| ensures s[i] == p[i] {
        assert s[..|p|][i] == s[i];
      }
    }
  }

  lemma {:induction false} PieceShape(c: CommandTag)
    ensures var n := FlagName(c.tagType); var p := Piece(c);
      && 1 <= |n| && |p| == 4 + |n| + |c.value|
      && p[0] == ' ' && p[1] == '-' && p[2] == '-' && p[3] == n[0] && n[0] != '-' && !IsSpace(n[0])
      && (forall i :: 3 <= i < 3 + |n| ==> p[i] == n[i - 3] && p[i] != '-' && !IsSpace(p[i]))
      && p[3 + |n|] == ' '
      && (forall i :: 4 + |n| <= i < |p| ==> p[i] == c.value[i - 4 - |n|])
      && p[1..] == "--" + n + " " + c.value
      && p[3..] == n + " " + c.value
  {
  }

  lemma {:induction false} PieceLength(c: CommandTag)
    ensures |Piece(c)| == 4 + |FlagName(c.tagType)| + |c.value|
  {
  }

  lemma {:induction false} RenderStartsWithSpace(commands: seq<CommandTag>)
    ensures Render(commands) == [] || Render(commands)[0] == ' '
  {
    if commands != [] {
      PieceShape(commands[0]);
    }
  }

  lemma {:induction false} RenderAppend(a: seq<CommandTag>, b: seq<CommandTag>)
    ensures Render(a + b) == Render(a) + Render(b)
    decreases |a|
  {
    if a == [] {
      assert a + b == b;
    } else {
      assert (a + b)[1..] == a[1..] + b;
      RenderAppend(a[1..], b);
    }
  }

  lemma {:induction false} RenderOfTag(t: TagType, m: Option<string>)
    ensures Render(TagIfMatched(t, m)) == if m.Some? then Piece(CommandTag(t, m.value)) else []
  {
    if m.Some? {
      assert [CommandTag(t, m.value)][1..] == [];
    }
  }

  lemma {:induction false} AspectRatioCommandRendered(ratio: string)
    ensures Render(TagIfMatched(Ar, if ratio != "" then Some(ratio) else None)) == AspectRatioCommand(ratio)
  {
    RenderOfTag(Ar, if ratio != "" then Some(ratio) else None);
    assert " --" + "ar" + " " == " --ar ";
  }

  lemma {:induction false} StylizationCommandRendered(value: int)
    ensures Render(TagIfMatched(S, if value > 0 then Some(DecimalString(value)) else None)) == StylizationCommand(value)
  {
    RenderOfTag(S, if value > 0 then Some(DecimalString(value)) else None);
    assert " --" + "s" + " " == " --s ";
  }

  lemma {:induction false} StyleReferenceCommandRendered(reference: string)
    ensures Render(TagIfMatched(Sref, if reference != "" then Some(reference) else None)) == StyleReferenceCommand(reference)
  {
    RenderOfTag(Sref, if reference != "" then Some(reference) else None);
    assert " --" + "sref" + " " == " --sref ";
  }

  /** What the handlers append is the rendering of their settings' commands. */
  lemma {:induction false} SettingsSuffixIsRendered(ratio: string, stylization: int, reference: string)
    ensures AspectRatioCommand(ratio) + StylizationCommand(stylization) + StyleReferenceCommand(reference)
      == Render(SettingsCommands(ratio, stylization, reference))
    ensures AspectRatioCommand(ratio) + StylizationCommand(stylization) == Render(SettingsCommands(ratio, stylization, ""))
  {
    var ma := if ratio != "" then Some(ratio) else None;
    var ms := if stylization > 0 then Some(DecimalString(stylization)) else None;
    var mr := if reference != "" then Some(reference) else None;
    var a, b, r := TagIfMatched(Ar, ma), TagIfMatched(S, ms), TagIfMatched(Sref, mr);
    assert SettingsCommands(ratio, stylization, reference) == a + b + r;
    assert SettingsCommands(ratio, stylization, "") == a + b + [];
    AspectRatioCommandRendered(ratio);
    StylizationCommandRendered(stylization);
    StyleReferenceCommandRendered(reference);
    RenderAppend(a, b);
    RenderAppend(a + b, r);
    RenderAppend(a + b, []);
  }

  // ---------------------------------------------------------------------------
  // The removal pattern on rebuilt prompts

  /** `name\s+[^\s]+` on `name`, one space and a plain value consumes exactly those. */
  lemma {:induction false} FlagArgumentOfOwnName(n: string, v: string, r: string)
    requires PlainValue(v)
    requires r == [] || IsSpace(r[0])
    ensures FlagArgumentMatch(n, n + " " + v + r) == Some(|n| + 1 + |v|)
  {
    OwnNameSlices(n, v, r);
    SpaceAfterName(v, r);
    ValueAfterSpace(v, r);
  }

  lemma {:induction false} OwnNameSlices(n: string, v: string, r: string)
    ensures var x := n + " " + v + r;
      && n <= x && x[|n|..] == " " + (v + r) && x[|n| + 1..] == v + r
  {
    var x := n + " " + v + r;
    var tail := " " + (v + r);
    ConcatAssoc(n, " ", v);
    ConcatAssoc(n, " " + v, r);
    ConcatAssoc(" ", v, r);
    assert x == n + tail;
    ConcatSlices(n, tail);
    ConcatSlices(" ", v + r);
    assert x[|n| + 1..] == tail[1..];
  }

  lemma {:induction false} SpaceAfterName(v: string, r: string)
    requires PlainValue(v)
    ensures Span(" " + (v + r), IsSpace) == 1
  {
    assert (v + r)[0] == v[0];
    SpanOfRun(" ", v + r, IsSpace);
  }

  lemma {:induction false} ValueAfterSpace(v: string, r: string)
    requires PlainValue(v)
    requires r == [] || IsSpace(r[0])
    ensures Span(v + r, IsNonSpace) == |v|
  {
    assert All(v, IsNonSpace);
    SpanOfRun(v, r, IsNonSpace);
  }

  /** An alternative whose first letter differs does not match. */
  lemma {:induction false} ArgumentMismatch(m: string, x: string)
    requires |m| > 0 && |x| > 0 && x[0] != m[0]
    ensures FlagArgumentMatch(m, x) == None
  {
    PrefixChars(m, x);
  }

  /** `s\s+` does not match where a letter follows the `s`, as in `sref`. */
  lemma {:induction false} ShortFlagInsideLong(x: string)
    requires |x| >= 2 && x[0] == 's' && x[1] == 'r'
    ensures FlagArgumentMatch("s", x) == None
  {
    assert x[1..][0] == 'r';
    assert Span(x[1..], IsSpace) == 0;
  }

  lemma {:induction false} AlternativeMatchStep(names: seq<string>, x: string)
    requires names != [] && FlagArgumentMatch(names[0], x).None?
    ensures AlternativeMatch(names, x) == AlternativeMatch(names[1..], x)
  {
  }

  lemma {:induction false} AlternativeMatchOfAr(names: seq<string>, t: TagType, v: string, r: string)
    requires names == AllFlags || names == AspectAndStyleFlags
    requires t == Ar && PlainValue(v) && (r == [] || IsSpace(r[0]))
    ensures AlternativeMatch(names, FlagName(t) + " " + v + r)
      == if Removes(names, t) then Some(|FlagName(t)| + 1 + |v|) else None
  {
    FlagArgumentOfOwnName(FlagName(t), v, r);
    assert names[0] == FlagName(t);
  }

  lemma {:induction false} AlternativeMatchOfS(names: seq<string>, t: TagType, v: string, r: string)
    requires names == AllFlags || names == AspectAndStyleFlags
    requires t == S && PlainValue(v) && (r == [] || IsSpace(r[0]))
    ensures AlternativeMatch(names, FlagName(t) + " " + v + r)
      == if Removes(names, t) then Some(|FlagName(t)| + 1 + |v|) else None
  {
    var x := FlagName(t) + " " + v + r;
    FlagArgumentOfOwnName(FlagName(t), v, r);
    assert x[0] == 's';
    ArgumentMismatch("ar", x);
    AlternativeMatchStep(names, x);
    assert names[1..][0] == FlagName(t);
  }

  lemma {:induction false} AlternativeMatchOfSref(names: seq<string>, t: TagType, v: string, r: string)
    requires names == AllFlags || names == AspectAndStyleFlags
    requires t == Sref && PlainValue(v) && (r == [] || IsSpace(r[0]))
    ensures AlternativeMatch(names, FlagName(t) + " " + v + r)
      == if Removes(names, t) then Some(|FlagName(t)| + 1 + |v|) else None
  {
    var x := FlagName(t) + " " + v + r;
    FlagArgumentOfOwnName(FlagName(t), v, r);
    assert x[0] == 's';
    ArgumentMismatch("ar", x);
    AlternativeMatchStep(names, x);
    assert x[1] == 'r';
    ShortFlagInsideLong(x);
    assert names[1..][0] == "s";
    AlternativeMatchStep(names[1..], x);
    if names == AllFlags {
      assert names[1..][1..] == [FlagName(t)];
    } else {
      assert names[1..][1..] == [];
    }
  }

  /** The first alternative of `names` that fits a piece's flag name is that flag's own. */
  lemma {:induction false} AlternativeMatchOfPiece(names: seq<string>, t: TagType, v: string, r: string)
    requires names == AllFlags || names == AspectAndStyleFlags
    requires PlainValue(v)
    requires r == [] || IsSpace(r[0])
    ensures AlternativeMatch(names, FlagName(t) + " " + v + r)
      == if Removes(names, t) then Some(|FlagName(t)| + 1 + |v|) else None
  {
    match t
    case Ar => AlternativeMatchOfAr(names, t, v, r);
    case S => AlternativeMatchOfS(names, t, v, r);
    case Sref => AlternativeMatchOfSref(names, t, v, r);
  }

  lemma {:induction false} FlagMatchByParts(names: seq<string>, s: string, w: nat, x: string)
    requires 0 < w && Span(s, IsSpace) == w && w + 2 <= |s| && s[w] == '-' && s[w + 1] == '-'
    requires s[w + 2..] == x
    ensures FlagMatch(names, s)
      == match AlternativeMatch(names, x) case Some(n) => Some(w + 2 + n) case None => None
  {
    assert s[w..][..2] == "--";
  }

  lemma {:induction false} SpacesBeforePiece(w: string, c: CommandTag, r: string)
    requires All(w, IsSpace)
    ensures var s := w + Piece(c) + r;
      && |s| >= |w| + 3
      && Span(s, IsSpace) == |w| + 1 && s[|w| + 1] == '-' && s[|w| + 2] == '-'
      && s[|w| + 3..] == FlagName(c.tagType) + " " + c.value + r
  {
    PieceShape(c);
    var s := w + Piece(c) + r;
    var tail := "--" + FlagName(c.tagType) + " " + c.value + r;
    assert s == (w + " ") + tail;
    assert All(w + " ", IsSpace) by {
      forall i | 0 <= i < |w + " "| ensures IsSpace((w + " ")[i]) {
        if i < |w| {
          assert (w + " ")[i] == w[i];
        }
      }
    }
    SpanOfRun(w + " ", tail, IsSpace);
  }

  /** A piece the alternation names, preceded by whitespace, is one whole match. */
  lemma {:induction false} RemovedPieceMatch(names: seq<string>, w: string, c: CommandTag, r: string)
    requires names == AllFlags || names == AspectAndStyleFlags
    requires All(w, IsSpace) && WellFormedValue(c.tagType, c.value) && Removes(names, c.tagType)
    requires r == [] || IsSpace(r[0])
    ensures FlagMatch(names, w + Piece(c) + r) == Some(|w + Piece(c)|)
  {
    WellFormedValueIsPlain(c.tagType, c.value);
    PieceLength(c);
    SpacesBeforePiece(w, c, r);
    FlagMatchByParts(names, w + Piece(c) + r, |w| + 1, FlagName(c.tagType) + " " + c.value + r);
    AlternativeMatchOfPiece(names, c.tagType, c.value, r);
  }

  /** A piece the alternation does not name, preceded by whitespace, is no match. */
  lemma {:induction false} KeptPieceMatch(names: seq<string>, w: string, c: CommandTag, r: string)
    requires names == AllFlags || names == AspectAndStyleFlags
    requires All(w, IsSpace) && WellFormedValue(c.tagType, c.value) && !Removes(names, c.tagType)
    requires r == [] || IsSpace(r[0])
    ensures FlagMatch(names, w + Piece(c) + r).None?
  {
    WellFormedValueIsPlain(c.tagType, c.value);
    SpacesBeforePiece(w, c, r);
    FlagMatchByParts(names, w + Piece(c) + r, |w| + 1, FlagName(c.tagType) + " " + c.value + r);
    AlternativeMatchOfPiece(names, c.tagType, c.value, r);
  }

  lemma {:induction false} RemoveFlagsKeeps(names: seq<string>, s: string)
    requires s != [] && FlagMatch(names, s).None?
    ensures RemoveFlags(names, s) == [s[0]] + RemoveFlags(names, s[1..])
  {
  }

  lemma {:induction false} JoinHead(s: string, k: nat, y: string)
    requires 0 < k <= |s|
    ensures [s[0]] + (s[1..][..k - 1] + y) == s[..k] + y
  {
    assert s[..k] == [s[0]] + s[1..][..k - 1];
  }

  /** Where no match starts in the first `k` characters, the scan keeps them all. */
  lemma {:induction false} RemoveFlagsSkipsPrefix(names: seq<string>, s: string, k: nat)
    requires k <= |s|
    requires forall i :: 0 <= i < k ==> FlagMatch(names, s[i..]).None?
    ensures RemoveFlags(names, s) == s[..k] + RemoveFlags(names, s[k..])
    decreases k
  {
    if k == 0 {
      assert s[0..] == s;
    } else {
      var t := s[1..];
      assert s[0..] == s;
      RemoveFlagsKeeps(names, s);
      forall i | 0 <= i < k - 1 ensures FlagMatch(names, t[i..]).None? {
        assert t[i..] == s[i + 1..];
      }
      RemoveFlagsSkipsPrefix(names, t, k - 1);
      assert t[k - 1..] == s[k..];
      JoinHead(s, k, RemoveFlags(names, s[k..]));
    }
  }

  /** A greedy run of `p` stops before the first character outside `p`. */
  lemma {:induction false} SpanStopsAt(s: string, p: char -> bool, j: nat)
    requires j < |s| && !p(s[j])
    ensures Span(s, p) <= j
    decreases j
  {
    if p(s[0]) {
      assert s[1..][j - 1] == s[j];
      SpanStopsAt(s[1..], p, j - 1);
    }
  }

  lemma {:induction false} FlagMatchNeedsDashes(names: seq<string>, s: string)
    ensures FlagMatch(names, s).Some? ==>
      var w := Span(s, IsSpace); w + 1 < |s| && s[w] == '-' && s[w + 1] == '-'
  {
    var w := Span(s, IsSpace);
    PrefixChars("--", s[w..]);
    if "--" <= s[w..] {
      assert s[w..][0] == s[w] && s[w..][1] == s[w + 1];
    }
  }

  /** No match starts inside a text without `--` that ends in a non-space character, when no `-` follows it. */
  lemma {:induction false} NoFlagMatchInText(names: seq<string>, core: string, q: string, i: nat)
    requires NoDoubleDash(core) && i < |core|
    requires !IsSpace(core[|core| - 1])
    requires q == [] || q[0] != '-'
    ensures FlagMatch(names, (core + q)[i..]).None?
  {
    var s := (core + q)[i..];
    assert s[|core| - 1 - i] == core[|core| - 1];
    SpanStopsAt(s, IsSpace, |core| - 1 - i);
    var w := Span(s, IsSpace);
    FlagMatchNeedsDashes(names, s);
    assert s[w] == core[i + w];
    if i + w + 1 < |core| {
      assert s[w + 1] == core[i + w + 1];
    } else if q != [] {
      assert s[w + 1] == q[0];
    } else {
      assert |s| == w + 1;
    }
  }

  /** An `--sref` piece survives the `(?:ar|s)` removal, whitespace before it included. */
  lemma {:induction false} KeptPieceNoMatch(w: string, c: CommandTag, r: string, i: nat)
    requires All(w, IsSpace) && WellFormedValue(c.tagType, c.value) && c.tagType == Sref
    requires r == [] || IsSpace(r[0])
    requires i < |w + Piece(c)|
    ensures FlagMatch(AspectAndStyleFlags, (w + Piece(c) + r)[i..]).None?
  {
    PieceLength(c);
    if i <= |w| {
      var s := w + Piece(c) + r;
      assert s[i..] == w[i..] + Piece(c) + r;
      assert All(w[i..], IsSpace);
      KeptPieceMatch(AspectAndStyleFlags, w[i..], c, r);
    } else if i == |w| + 7 {
      SpaceBeforeValueNoMatch(w, c, r);
    } else {
      InsideSrefPieceNoMatch(w, c, r, i);
    }
  }

  /** The space between `--sref` and its value starts no match: no `--` follows it. */
  lemma {:induction false} SpaceBeforeValueNoMatch(w: string, c: CommandTag, r: string)
    requires WellFormedValue(c.tagType, c.value) && c.tagType == Sref
    requires r == [] || IsSpace(r[0])
    ensures FlagMatch(AspectAndStyleFlags, (w + Piece(c) + r)[|w| + 7..]).None?
  {
    var v := c.value;
    WellFormedValueIsPlain(c.tagType, v);
    var s := w + Piece(c) + r;
    assert Piece(c) == " --sref " + v;
    var x := s[|w| + 7..];
    assert x == " " + (v + r);
    assert (v + r)[0] == v[0];
    SpanOfRun(" ", v + r, IsSpace);
    FlagMatchNeedsDashes(AspectAndStyleFlags, x);
    assert x[1] == v[0];
  }

  /** Inside `--sref <value>`, away from its one inner space, no match starts: no whitespace is there. */
  lemma {:induction false} InsideSrefPieceNoMatch(w: string, c: CommandTag, r: string, i: nat)
    requires WellFormedValue(c.tagType, c.value) && c.tagType == Sref
    requires |w| < i < |w + Piece(c)| && i != |w| + 7
    ensures FlagMatch(AspectAndStyleFlags, (w + Piece(c) + r)[i..]).None?
  {
    WellFormedValueIsPlain(c.tagType, c.value);
    SrefPieceNonSpace(c, i - |w|);
    var s := w + Piece(c) + r;
    assert s[i] == Piece(c)[i - |w|];
    assert s[i..][0] == s[i];
  }

  lemma {:induction false} SrefPieceNonSpace(c: CommandTag, j: nat)
    requires c.tagType == Sref && PlainValue(c.value)
    requires 1 <= j < |Piece(c)| && j != 7
    ensures !IsSpace(Piece(c)[j])
  {
    var p := Piece(c);
    assert p == " --sref " + c.value;
    if j >= 8 {
      assert p[j] == c.value[j - 8];
    }
  }

  lemma {:induction false} WellFormedTail(commands: seq<CommandTag>)
    requires commands != [] && WellFormedCommands(commands)
    ensures WellFormedValue(commands[0].tagType, commands[0].value)
    ensures WellFormedCommands(commands[1..])
  {
    assert WellFormedValue(commands[0].tagType, commands[0].value);
    forall i | 0 <= i < |commands[1..]| ensures WellFormedValue(commands[1..][i].tagType, commands[1..][i].value) {
      assert commands[1..][i] == commands[i + 1];
    }
  }

  lemma {:induction false} NoDoubleDashPrefix(s: string, k: nat)
    requires NoDoubleDash(s) && k <= |s|
    ensures NoDoubleDash(s[..k])
  {
    forall i | 0 <= i < k - 1 ensures !(s[..k][i] == '-' && s[..k][i + 1] == '-') {
      assert s[..k][i] == s[i] && s[..k][i + 1] == s[i + 1];
    }
  }

  lemma {:induction false} RemoveFlagsDeletesTo(names: seq<string>, s: string, n: nat, r: string)
    requires FlagMatch(names, s) == Some(n) && s[n..] == r
    ensures RemoveFlags(names, s) == RemoveFlags(names, r)
  {
  }

  /** The scan copies a text without `--` whole when it ends in a non-space character and no `-` follows. */
  lemma {:induction false} ScanOverText(names: seq<string>, core: string, q: string)
    requires NoDoubleDash(core)
    requires core == [] || !IsSpace(core[|core| - 1])
    requires q == [] || q[0] != '-'
    ensures RemoveFlags(names, core + q) == core + RemoveFlags(names, q)
  {
    var s := core + q;
    forall i | 0 <= i < |core| ensures FlagMatch(names, s[i..]).None? {
      NoFlagMatchInText(names, core, q, i);
    }
    RemoveFlagsSkipsPrefix(names, s, |core|);
    ConcatSlices(core, q);
  }

  /** A piece the alternation names goes, with the whitespace before it. */
  lemma {:induction false} RemovedPiece(names: seq<string>, w: string, c: CommandTag, r: string)
    requires names == AllFlags || names == AspectAndStyleFlags
    requires All(w, IsSpace) && WellFormedValue(c.tagType, c.value) && Removes(names, c.tagType)
    requires r == [] || IsSpace(r[0])
    ensures RemoveFlags(names, w + Piece(c) + r) == RemoveFlags(names, r)
  {
    RemovedPieceMatch(names, w, c, r);
    ConcatSlices(w + Piece(c), r);
    RemoveFlagsDeletesTo(names, w + Piece(c) + r, |w + Piece(c)|, r);
  }

  /** A piece the alternation does not name stays, with the whitespace before it. */
  lemma {:induction false} KeptPiece(w: string, c: CommandTag, r: string, names: seq<string>)
    requires names == AllFlags || names == AspectAndStyleFlags
    requires All(w, IsSpace) && WellFormedValue(c.tagType, c.value) && !Removes(names, c.tagType)
    requires r == [] || IsSpace(r[0])
    ensures RemoveFlags(names, w + Piece(c) + r) == w + Piece(c) + RemoveFlags(names, r)
  {
    var p := w + Piece(c);
    var s := p + r;
    forall i | 0 <= i < |p| ensures FlagMatch(names, s[i..]).None? {
      KeptPieceNoMatch(w, c, r, i);
    }
    RemoveFlagsSkipsPrefix(names, s, |p|);
    ConcatSlices(p, r);
  }

  lemma {:induction false} RenderCons(c: CommandTag, commands: seq<CommandTag>)
    ensures Render([c] + commands) == Piece(c) + Render(commands)
  {
    assert ([c] + commands)[1..] == commands;
  }

  /** A rebuilt prompt, cut where the whitespace that ends its base begins. */
  lemma {:induction false} RebuiltParts(base: string, c: CommandTag, r: string)
    ensures var core := TrimEnd(base); var w := base[|core|..];
      && base + (Piece(c) + r) == core + (w + Piece(c) + r)
      && All(w, IsSpace)
      && (w + Piece(c) + r)[0] != '-'
  {
    var core := TrimEnd(base);
    var w := base[|core|..];
    SliceJoin(base, |core|);
    ConcatAssoc(w, Piece(c), r);
    ConcatAssoc(core, w, Piece(c) + r);
    PieceShape(c);
    if w != [] {
      ConcatHead(w, Piece(c) + r);
    }
  }

  /** A first piece the alternation names goes, with the whitespace that ends the base. */
  lemma {:induction false} RemovedFirst(names: seq<string>, base: string, c: CommandTag, r: string)
    requires names == AllFlags || names == AspectAndStyleFlags
    requires NoDoubleDash(base) && WellFormedValue(c.tagType, c.value) && Removes(names, c.tagType)
    requires r == [] || IsSpace(r[0])
    ensures RemoveFlags(names, base + (Piece(c) + r)) == TrimEnd(base) + RemoveFlags(names, r)
  {
    var core := TrimEnd(base);
    var w := base[|core|..];
    NoDoubleDashPrefix(base, |core|);
    RebuiltParts(base, c, r);
    ScanOverText(names, core, w + Piece(c) + r);
    RemovedPiece(names, w, c, r);
  }

  /** A first piece the alternation does not name stays, and so does the base. */
  lemma {:induction false} KeptFirst(names: seq<string>, base: string, c: CommandTag, r: string)
    requires names == AllFlags || names == AspectAndStyleFlags
    requires NoDoubleDash(base) && WellFormedValue(c.tagType, c.value) && !Removes(names, c.tagType)
    requires r == [] || IsSpace(r[0])
    ensures RemoveFlags(names, base + (Piece(c) + r)) == base + (Piece(c) + RemoveFlags(names, r))
  {
    var core := TrimEnd(base);
    var w := base[|core|..];
    var k := RemoveFlags(names, r);
    NoDoubleDashPrefix(base, |core|);
    RebuiltParts(base, c, r);
    ScanOverText(names, core, w + Piece(c) + r);
    KeptPiece(w, c, r, names);
    ConcatAssoc(w, Piece(c), k);
    ConcatAssoc(core, w, Piece(c) + k);
    SliceJoin(base, |core|);
  }

  /** The removal on a rebuilt prompt deletes the pieces its alternation names and, when the
    * first piece goes, the whitespace that ends the base. */
  lemma {:induction false} RemoveFlagsOfRebuilt(names: seq<string>, base: string, commands: seq<CommandTag>)
    requires names == AllFlags || names == AspectAndStyleFlags
    requires NoDoubleDash(base) && WellFormedCommands(commands)
    ensures RemoveFlags(names, base + Render(commands))
      == (if commands != [] && Removes(names, commands[0].tagType) then TrimEnd(base) else base)
         + Render(Kept(names, commands))
    decreases |commands|, 0
  {
    if commands == [] {
      assert Render(commands) == [] && Render(Kept(names, commands)) == [];
      assert base + [] == base;
      RemoveFlagsWithoutDashes(names, base);
    } else {
      var c, rest := commands[0], commands[1..];
      WellFormedTail(commands);
      var r := Render(rest);
      RenderStartsWithSpace(rest);
      RemoveFlagsOfRest(names, rest);
      assert Render(commands) == Piece(c) + r;
      if Removes(names, c.tagType) {
        RemovedFirst(names, base, c, r);
        assert Kept(names, commands) == Kept(names, rest);
      } else {
        KeptFirst(names, base, c, r);
        assert Kept(names, commands) == [c] + Kept(names, rest);
        RenderCons(c, Kept(names, rest));
      }
    }
  }

  /** The rendering of the remaining commands loses exactly its removed pieces. */
  lemma {:induction false} RemoveFlagsOfRest(names: seq<string>, rest: seq<CommandTag>)
    requires names == AllFlags || names == AspectAndStyleFlags
    requires WellFormedCommands(rest)
    ensures RemoveFlags(names, Render(rest)) == Render(Kept(names, rest))
    decreases |rest|, 1
  {
    RemoveFlagsOfRebuilt(names, [], rest);
    assert [] + Render(rest) == Render(rest);
  }

  // ---------------------------------------------------------------------------
  // The capture patterns on rebuilt prompts

  /** The capture of a well-formed value stops where the value ends. */
  lemma {:induction false} ValueMatchOfValue(t: TagType, v: string, r: string)
    requires WellFormedValue(t, v)
    requires r == [] || !ValueChar(t, r[0])
    ensures ValueMatch(t, v + r) == Some(v)
  {
    match t
    case Ar => RatioMatchOfValue(t, v, r);
    case S => DigitsMatchOfValue(t, v, r);
    case Sref => WordMatchOfValue(t, v, r);
  }

  lemma {:induction false} RatioMatchOfValue(t: TagType, v: string, r: string)
    requires t == Ar && WellFormedValue(t, v)
    requires r == [] || !ValueChar(t, r[0])
    ensures ValueMatch(t, v + r) == Some(v)
  {
    var a := Span(v, IsDigit);
    assert v == v[..a] + v[a..];
    assert v + r == v[..a] + (v[a..] + r);
    SpanOfRun(v[..a], v[a..] + r, IsDigit);
    assert (v + r)[a + 1..] == v[a + 1..] + r;
    SpanOfRun(v[a + 1..], r, IsDigit);
    assert (v + r)[..a + 1 + (|v| - a - 1)] == v;
  }

  lemma {:induction false} DigitsMatchOfValue(t: TagType, v: string, r: string)
    requires t == S && WellFormedValue(t, v)
    requires r == [] || !ValueChar(t, r[0])
    ensures ValueMatch(t, v + r) == Some(v)
  {
    SpanOfRun(v, r, IsDigit);
    assert (v + r)[..|v|] == v;
  }

  lemma {:induction false} WordMatchOfValue(t: TagType, v: string, r: string)
    requires t == Sref && WellFormedValue(t, v)
    requires r == [] || !ValueChar(t, r[0])
    ensures ValueMatch(t, v + r) == Some(v)
  {
    SpanOfRun(v, r, IsWordChar);
    assert (v + r)[..|v|] == v;
  }

  lemma {:induction false} TagMatchNeedsDashes(t: TagType, s: string)
    ensures TagMatch(t, s).Some? ==> |s| >= 3 && s[0] == '-' && s[1] == '-' && s[2] == FlagName(t)[0]
  {
    PrefixChars("--" + FlagName(t), s);
  }

  /** `--<flag>\s+(<value>)` on the tag's own flag: the capture taken after the whitespace. */
  lemma {:induction false} TagMatchOfFlag(t: TagType, rest: string)
    ensures TagMatch(t, ("--" + FlagName(t)) + rest)
      == var w := Span(rest, IsSpace); if w > 0 then ValueMatch(t, rest[w..]) else None
  {
    var f := "--" + FlagName(t);
    var x := f + rest;
    ConcatSlices(f, rest);
    assert f <= x;
    var w := Span(rest, IsSpace);
    assert x[|f| + w..] == rest[w..];
  }

  /** A piece's own capture pattern, tried at its `--`, captures the piece's value. */
  lemma {:induction false} OwnTagMatch(c: CommandTag, r: string)
    requires WellFormedValue(c.tagType, c.value)
    requires r == [] || r[0] == ' '
    ensures TagMatch(c.tagType, (Piece(c) + r)[1..]) == Some(c.value)
  {
    PieceShape(c);
    var t, v := c.tagType, c.value;
    var f := "--" + FlagName(t);
    WellFormedValueIsPlain(t, v);
    ConcatHead(Piece(c), r);
    ConcatAssoc(f + " ", v, r);
    ConcatAssoc(f, " ", v + r);
    TagMatchOfFlag(t, " " + (v + r));
    ConcatHead(v, r);
    SpanOfRun(" ", v + r, IsSpace);
    ConcatSlices(" ", v + r);
    ValueMatchOfValue(t, v, r);
  }

  /** At a piece's `--`, the capture pattern of another tag does not match. */
  lemma {:induction false} OtherTagMatch(t: TagType, c: CommandTag, r: string)
    requires t != c.tagType
    requires r == [] || r[0] == ' '
    ensures TagMatch(t, (Piece(c) + r)[1..]).None?
  {
    if t == Sref && c.tagType == S {
      SrefAtShortFlag(t, c, r);
    } else if t == S && c.tagType == Sref {
      ShortFlagAtSref(t, c, r);
    } else {
      OtherFirstLetter(t, c, r);
    }
  }

  /** `--ar` never matches at `--s…`, nor `--s…` at `--ar`. */
  lemma {:induction false} OtherFirstLetter(t: TagType, c: CommandTag, r: string)
    requires FlagName(t)[0] != FlagName(c.tagType)[0]
    ensures TagMatch(t, (Piece(c) + r)[1..]).None?
  {
    var x := (Piece(c) + r)[1..];
    assert Piece(c) == " --" + FlagName(c.tagType) + " " + c.value;
    assert x[2] == FlagName(c.tagType)[0];
    TagMatchNeedsDashes(t, x);
  }

  /** `--sref` does not match at `--s `: the space comes where `r` would. */
  lemma {:induction false} SrefAtShortFlag(t: TagType, c: CommandTag, r: string)
    requires t == Sref && c.tagType == S
    ensures TagMatch(t, (Piece(c) + r)[1..]).None?
  {
    var x := (Piece(c) + r)[1..];
    assert Piece(c) == " --s " + c.value;
    assert x[3] == ' ';
    PrefixChars("--sref", x);
  }

  /** `--s\s+` does not match at `--sref`: a letter, not whitespace, follows the `s`. */
  lemma {:induction false} ShortFlagAtSref(t: TagType, c: CommandTag, r: string)
    requires t == S && c.tagType == Sref
    ensures TagMatch(t, (Piece(c) + r)[1..]).None?
  {
    var x := (Piece(c) + r)[1..];
    assert Piece(c) == " --sref " + c.value;
    assert x[0] == '-' && x[1] == '-' && x[2] == 's' && x[3] == 'r';
    assert x[..3] == "--s";
    assert x[3..][0] == 'r';
    assert Span(x[3..], IsSpace) == 0;
  }

  /** Of the three capture patterns, only the piece's own matches at its `--`. */
  lemma {:induction false} PieceTagMatch(t: TagType, c: CommandTag, r: string)
    requires WellFormedValue(c.tagType, c.value)
    requires r == [] || r[0] == ' '
    ensures TagMatch(t, (Piece(c) + r)[1..]) == if c.tagType == t then Some(c.value) else None
  {
    if c.tagType == t {
      OwnTagMatch(c, r);
    } else {
      OtherTagMatch(t, c, r);
    }
  }

  lemma {:induction false} FirstTagMatchStep(t: TagType, s: string)
    requires s != [] && TagMatch(t, s).None?
    ensures FirstTagMatch(t, s) == FirstTagMatch(t, s[1..])
  {
  }

  /** Where the capture pattern matches nowhere in the first `k` characters, the search goes past them. */
  lemma {:induction false} FirstTagMatchSkipsPrefix(t: TagType, s: string, k: nat)
    requires k <= |s|
    requires forall i :: 0 <= i < k ==> TagMatch(t, s[i..]).None?
    ensures FirstTagMatch(t, s) == FirstTagMatch(t, s[k..])
    decreases k
  {
    if k == 0 {
      assert s[0..] == s;
    } else {
      var u := s[1..];
      assert s[0..] == s;
      FirstTagMatchStep(t, s);
      forall i | 0 <= i < k - 1 ensures TagMatch(t, u[i..]).None? {
        assert u[i..] == s[i + 1..];
      }
      FirstTagMatchSkipsPrefix(t, u, k - 1);
      assert u[k - 1..] == s[k..];
    }
  }

  /** No capture pattern matches inside a piece except at its own `--`. */
  lemma {:induction false} PieceTagPositions(t: TagType, c: CommandTag, r: string, i: nat)
    requires WellFormedValue(c.tagType, c.value)
    requires r == [] || r[0] == ' '
    requires i < |Piece(c)| && i != 1
    ensures TagMatch(t, (Piece(c) + r)[i..]).None?
  {
    PieceShape(c);
    WellFormedValueIsPlain(c.tagType, c.value);
    var s := Piece(c) + r;
    TagMatchNeedsDashes(t, s[i..]);
    if i == 2 {
      assert s[i..][1] == FlagName(c.tagType)[0];
    } else {
      assert s[i..][0] == Piece(c)[i];
    }
  }

  /** The capture of tag `t` in a rendering is the value of its first piece of type `t`. */
  lemma {:induction false} FirstTagMatchOfRender(t: TagType, commands: seq<CommandTag>)
    requires WellFormedCommands(commands)
    ensures FirstTagMatch(t, Render(commands)) == CommandFor(commands, t)
    decreases |commands|
  {
    if commands != [] {
      var c, rest := commands[0], commands[1..];
      WellFormedTail(commands);
      var r := Render(rest);
      RenderStartsWithSpace(rest);
      PieceShape(c);
      var s := Piece(c) + r;
      assert Render(commands) == s;
      PieceTagPositions(t, c, r, 0);
      assert s[0..] == s;
      FirstTagMatchStep(t, s);
      PieceTagMatch(t, c, r);
      if c.tagType == t {
        assert FirstTagMatch(t, s[1..]) == TagMatch(t, s[1..]);
      } else {
        forall i | 0 <= i < |Piece(c)| ensures TagMatch(t, s[i..]).None? {
          if i != 1 {
            PieceTagPositions(t, c, r, i);
          }
        }
        FirstTagMatchSkipsPrefix(t, s, |Piece(c)|);
        assert s[|Piece(c)|..] == r;
        FirstTagMatchOfRender(t, rest);
      }
    }
  }

  /** The capture of tag `t` in a rebuilt prompt comes from the rendered modifiers, never from the base. */
  lemma {:induction false} FirstTagMatchOfRebuilt(t: TagType, base: string, commands: seq<CommandTag>)
    requires NoDoubleDash(base) && WellFormedCommands(commands)
    ensures FirstTagMatch(t, base + Render(commands)) == CommandFor(commands, t)
  {
    var r := Render(commands);
    var s := base + r;
    RenderStartsWithSpace(commands);
    forall i | 0 <= i < |base| ensures TagMatch(t, s[i..]).None? {
      TagMatchNeedsDashes(t, s[i..]);
      assert s[i..][0] == base[i];
      if i + 1 < |base| {
        assert s[i..][1] == base[i + 1];
      } else if r != [] {
        assert s[i..][1] == r[0];
      } else {
        assert |s[i..]| == 1;
      }
    }
    FirstTagMatchSkipsPrefix(t, s, |base|);
    assert s[|base|..] == r;
    FirstTagMatchOfRender(t, commands);
  }

  // ---------------------------------------------------------------------------
  // Round trips

  lemma {:induction false} KeptAllFlagsIsEmpty(commands: seq<CommandTag>)
    ensures Kept(AllFlags, commands) == []
    decreases |commands|
  {
    if commands != [] {
      KeptAllFlagsIsEmpty(commands[1..]);
    }
  }

  /** Removing all three flags from a rebuilt prompt leaves the base, less trailing whitespace when a piece followed. */
  lemma {:induction false} StripRebuilt(base: string, commands: seq<CommandTag>)
    requires NoDoubleDash(base) && WellFormedCommands(commands)
    ensures RemoveFlags(AllFlags, base + Render(commands)) == if commands != [] then TrimEnd(base) else base
  {
    RemoveFlagsOfRebuilt(AllFlags, base, commands);
    KeptAllFlagsIsEmpty(commands);
    if commands != [] {
    }
  }

  /** Parsing a rebuilt prompt gives back the trimmed base and, in the order ar, s, sref,
    * the first rendered value of each tag. */
  lemma {:induction false} ParseRebuilt(base: string, commands: seq<CommandTag>)
    requires NoDoubleDash(base) && WellFormedCommands(commands)
    ensures ParsePromptAndCommands(base + Render(commands))
      == ParsedPrompt(Trim(base),
           Canonical(CommandFor(commands, Ar), CommandFor(commands, S), CommandFor(commands, Sref)))
  {
    var s := base + Render(commands);
    StripRebuilt(base, commands);
    TrimIgnoresTrailingSpace(base);
    assert Trim(RemoveFlags(AllFlags, s)) == Trim(base);
    FirstTagMatchOfRebuilt(Ar, base, commands);
    FirstTagMatchOfRebuilt(S, base, commands);
    FirstTagMatchOfRebuilt(Sref, base, commands);
  }
}
