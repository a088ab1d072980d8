/**
 * What `parsePromptAndCommands` makes of a prompt a settings handler of
 * src/components/ImageGenerator.tsx has just rebuilt.
 *
 * The handlers that strip all three flags are covered for any prompt whose stripped text
 * holds no `--`; the two that strip only `--ar`/`--s`, and the corollaries, for rebuilt
 * prompts `base + Render(previous)`: a text without `--` followed by well-formed modifier
 * pieces, which is what every handler produces.
 */
module PromptRoundTrips {
  import opened Wrappers
  import opened Text
  import opened PromptCommands
  import opened PromptSettings

  /** A setting a handler may append: unset, or a value the tag's capture pattern accepts. */
  predicate SettingValue(t: TagType, v: string) {
    v == "" || WellFormedValue(t, v)
  }

  lemma {:induction false} SettingsCommandsWellFormed(ratio: string, stylization: int, reference: string)
    requires SettingValue(Ar, ratio) && SettingValue(Sref, reference)
    ensures WellFormedCommands(SettingsCommands(ratio, stylization, reference))
  {
    var c := SettingsCommands(ratio, stylization, reference);
    forall i | 0 <= i < |c| ensures WellFormedValue(c[i].tagType, c[i].value) {
      if stylization > 0 && c[i] == CommandTag(S, DecimalString(stylization)) {
        assert All(DecimalString(stylization), IsDigit);
      }
    }
  }

  /** `(?:ar|s)` leaves only `--sref` pieces, in their order. */
  lemma {:induction false} KeptByAspectAndStyle(commands: seq<CommandTag>)
    requires WellFormedCommands(commands)
    ensures var k := Kept(AspectAndStyleFlags, commands);
      && WellFormedCommands(k)
      && CommandFor(k, Ar) == None && CommandFor(k, S) == None
      && CommandFor(k, Sref) == CommandFor(commands, Sref)
    decreases |commands|
  {
    if commands != [] {
      var c, rest := commands[0], commands[1..];
      WellFormedTail(commands);
      KeptByAspectAndStyle(rest);
      var k := Kept(AspectAndStyleFlags, rest);
      if c.tagType == Sref {
        var k' := [c] + k;
        assert Kept(AspectAndStyleFlags, commands) == k';
        assert k'[1..] == k;
        forall i | 0 <= i < |k'| ensures WellFormedValue(k'[i].tagType, k'[i].value) {
          if i > 0 {
            assert k'[i] == k[i - 1];
          }
        }
      } else {
        assert Kept(AspectAndStyleFlags, commands) == [] + k;
        assert [] + k == k;
      }
    }
  }

  /** The base before the appended pieces: a prefix of `base`, trimmed alike. */
  lemma {:induction false} ShortenedBase(base: string, cut: bool)
    requires NoDoubleDash(base)
    ensures var b := if cut then TrimEnd(base) else base;
      NoDoubleDash(b) && Trim(b) == Trim(base)
  {
    var b := if cut then TrimEnd(base) else base;
    assert b == base[..|b|];
    NoDoubleDashPrefix(base, |b|);
    TrimIgnoresTrailingSpace(base);
  }

  /** `b + x + y + z`, regrouped. */
  lemma {:induction false} Regroup(b: string, x: string, y: string, z: string)
    ensures b + x + y + z == b + (x + y + z)
  {
    ConcatAssoc(b, x, y);
    ConcatAssoc(b, x + y, z);
  }

  /** After `handleStyleReferenceChange` the parse gives back the trimmed, stripped prompt and
    * exactly the set modifiers, in the order ar, s, sref, whatever the prompt held before, as long
    * as the stripped text holds no `--` of its own. */
  lemma {:induction false} StyleReferenceChangeRoundTrip(st: Settings, value: string)
    requires NoDoubleDash(RemoveFlags(AllFlags, st.prompt))
    requires SettingValue(Ar, st.aspectRatio) && SettingValue(Sref, value)
    ensures ParsePromptAndCommands(HandleStyleReferenceChange(st, value).prompt)
      == ParsedPrompt(Trim(RemoveFlags(AllFlags, st.prompt)), SettingsCommands(st.aspectRatio, st.stylization, value))
  {
    var b := RemoveFlags(AllFlags, st.prompt);
    var sc := SettingsCommands(st.aspectRatio, st.stylization, value);
    SettingsSuffixIsRendered(st.aspectRatio, st.stylization, value);
    Regroup(b, AspectRatioCommand(st.aspectRatio), StylizationCommand(st.stylization), StyleReferenceCommand(value));
    SettingsCommandsWellFormed(st.aspectRatio, st.stylization, value);
    ParseRebuilt(b, sc);
  }

  /** On a prompt a handler has rebuilt, the text kept is the base before the old modifiers. */
  lemma {:induction false} StyleReferenceChangeOfRebuilt(st: Settings, base: string, previous: seq<CommandTag>, value: string)
    requires st.prompt == base + Render(previous)
    requires NoDoubleDash(base) && WellFormedCommands(previous)
    requires SettingValue(Ar, st.aspectRatio) && SettingValue(Sref, value)
    ensures ParsePromptAndCommands(HandleStyleReferenceChange(st, value).prompt)
      == ParsedPrompt(Trim(base), SettingsCommands(st.aspectRatio, st.stylization, value))
  {
    StripRebuilt(base, previous);
    ShortenedBase(base, previous != []);
    StyleReferenceChangeRoundTrip(st, value);
  }

  /** Stripping `--ar`/`--s`, then appending aspect ratio and stylization, then parsing: the
    * first two come from the settings, the style reference from the old prompt. */
  lemma {:induction false} AspectAndStyleRoundTrip(
    base: string, previous: seq<CommandTag>, ratio: string, stylization: int)
    requires NoDoubleDash(base) && WellFormedCommands(previous)
    requires SettingValue(Ar, ratio)
    ensures ParsePromptAndCommands(
        RemoveFlags(AspectAndStyleFlags, base + Render(previous)) + AspectRatioCommand(ratio) + StylizationCommand(stylization))
      == ParsedPrompt(Trim(base),
           Canonical(if ratio != "" then Some(ratio) else None,
                     if stylization > 0 then Some(DecimalString(stylization)) else None,
                     CommandFor(previous, Sref)))
  {
    var cut := previous != [] && Removes(AspectAndStyleFlags, previous[0].tagType);
    var b := if cut then TrimEnd(base) else base;
    var k := Kept(AspectAndStyleFlags, previous);
    var sc := SettingsCommands(ratio, stylization, "");
    RemoveFlagsOfRebuilt(AspectAndStyleFlags, base, previous);
    ShortenedBase(base, cut);
    SettingsSuffixIsRendered(ratio, stylization, "");
    ConcatAssoc(b, Render(k), AspectRatioCommand(ratio));
    Regroup(b, Render(k), AspectRatioCommand(ratio), StylizationCommand(stylization));
    ConcatAssoc(Render(k), AspectRatioCommand(ratio), StylizationCommand(stylization));
    RenderAppend(k, sc);
    KeptByAspectAndStyle(previous);
    SettingsCommandsWellFormed(ratio, stylization, "");
    WellFormedAppend(k, sc);
    ParseRebuilt(b, k + sc);
    CommandForAppend(k, sc, Ar);
    CommandForAppend(k, sc, S);
    CommandForAppend(k, sc, Sref);
  }

  lemma {:induction false} WellFormedAppend(a: seq<CommandTag>, b: seq<CommandTag>)
    requires WellFormedCommands(a) && WellFormedCommands(b)
    ensures WellFormedCommands(a + b)
  {
    forall i | 0 <= i < |a + b| ensures WellFormedValue((a + b)[i].tagType, (a + b)[i].value) {
      if i < |a| {
        assert (a + b)[i] == a[i];
      } else {
        assert (a + b)[i] == b[i - |a|];
      }
    }
  }

  /** After `handleAspectRatioChange` the parse shows the new aspect ratio, the stylization
    * setting and the style reference the prompt already held. */
  lemma {:induction false} AspectRatioChangeRoundTrip(st: Settings, base: string, previous: seq<CommandTag>, ratio: string)
    requires st.prompt == base + Render(previous)
    requires NoDoubleDash(base) && WellFormedCommands(previous)
    requires SettingValue(Ar, ratio)
    ensures ParsePromptAndCommands(HandleAspectRatioChange(st, ratio).prompt)
      == ParsedPrompt(Trim(base),
           Canonical(if ratio != "" then Some(ratio) else None,
                     if st.stylization > 0 then Some(DecimalString(st.stylization)) else None,
                     CommandFor(previous, Sref)))
  {
    AspectAndStyleRoundTrip(base, previous, ratio, st.stylization);
  }

  /** After `handleStylizationChange` the parse shows the aspect-ratio setting, the new
    * stylization and the style reference the prompt already held. */
  lemma {:induction false} StylizationChangeRoundTrip(st: Settings, base: string, previous: seq<CommandTag>, value: int)
    requires st.prompt == base + Render(previous)
    requires NoDoubleDash(base) && WellFormedCommands(previous)
    requires SettingValue(Ar, st.aspectRatio)
    ensures ParsePromptAndCommands(HandleStylizationChange(st, value).prompt)
      == ParsedPrompt(Trim(base),
           Canonical(if st.aspectRatio != "" then Some(st.aspectRatio) else None,
                     if value > 0 then Some(DecimalString(value)) else None,
                     CommandFor(previous, Sref)))
  {
    AspectAndStyleRoundTrip(base, previous, st.aspectRatio, value);
  }

  /** Unchecking random style is clearing the style reference, the checkbox state aside. */
  lemma {:induction false} RandomStyleOffClearsReference(st: Settings)
    ensures HandleRandomStyleToggle(st, false) == HandleStyleReferenceChange(st, "").(isRandomStyle := false)
  {
    var p := RemoveFlags(AllFlags, st.prompt) + AspectRatioCommand(st.aspectRatio) + StylizationCommand(st.stylization);
    assert StyleReferenceCommand("") == "";
    assert p + "" == p;
  }

  /** After either toggle the parse shows the trimmed, stripped prompt, the aspect-ratio and
    * stylization settings and `--sref random` exactly when the box is checked. */
  lemma {:induction false} RandomStyleToggleRoundTrip(st: Settings, checked: bool)
    requires NoDoubleDash(RemoveFlags(AllFlags, st.prompt))
    requires SettingValue(Ar, st.aspectRatio)
    ensures var r := HandleRandomStyleToggle(st, checked);
      && r.isRandomStyle == checked
      && r.styleReference == (if checked then RandomStyle else "")
      && ParsePromptAndCommands(r.prompt)
         == ParsedPrompt(Trim(RemoveFlags(AllFlags, st.prompt)),
                         SettingsCommands(st.aspectRatio, st.stylization, if checked then RandomStyle else ""))
  {
    if checked {
      RandomStyleOnRoundTrip(st);
    } else {
      RandomStyleOffRoundTrip(st);
    }
  }

  lemma {:induction false} RandomStyleOnRoundTrip(st: Settings)
    requires NoDoubleDash(RemoveFlags(AllFlags, st.prompt))
    requires SettingValue(Ar, st.aspectRatio)
    ensures ParsePromptAndCommands(HandleRandomStyleToggle(st, true).prompt)
      == ParsedPrompt(Trim(RemoveFlags(AllFlags, st.prompt)), SettingsCommands(st.aspectRatio, st.stylization, RandomStyle))
  {
    RandomStyleWellFormed();
    var on := st.(isRandomStyle := true);
    assert HandleRandomStyleToggle(st, true) == HandleStyleReferenceChange(on, RandomStyle);
    StyleReferenceChangeRoundTrip(on, RandomStyle);
  }

  /** `random` is a value the `--sref` capture pattern accepts. */
  lemma RandomStyleWellFormed()
    ensures WellFormedValue(Sref, RandomStyle)
  {
    assert forall i :: 0 <= i < |RandomStyle| ==> 'a' <= RandomStyle[i] <= 'z';
  }

  lemma {:induction false} RandomStyleOffRoundTrip(st: Settings)
    requires NoDoubleDash(RemoveFlags(AllFlags, st.prompt))
    requires SettingValue(Ar, st.aspectRatio)
    ensures ParsePromptAndCommands(HandleRandomStyleToggle(st, false).prompt)
      == ParsedPrompt(Trim(RemoveFlags(AllFlags, st.prompt)), SettingsCommands(st.aspectRatio, st.stylization, ""))
  {
    RandomStyleOffClearsReference(st);
    StyleReferenceChangeRoundTrip(st, "");
  }

  /** The toggle on a prompt a handler has rebuilt: the text kept is the base before the old modifiers. */
  lemma {:induction false} RandomStyleToggleOfRebuilt(st: Settings, base: string, previous: seq<CommandTag>, checked: bool)
    requires st.prompt == base + Render(previous)
    requires NoDoubleDash(base) && WellFormedCommands(previous)
    requires SettingValue(Ar, st.aspectRatio)
    ensures var r := HandleRandomStyleToggle(st, checked);
      && r.isRandomStyle == checked
      && r.styleReference == (if checked then RandomStyle else "")
      && ParsePromptAndCommands(r.prompt)
         == ParsedPrompt(Trim(base), SettingsCommands(st.aspectRatio, st.stylization, if checked then RandomStyle else ""))
  {
    StripRebuilt(base, previous);
    ShortenedBase(base, previous != []);
    RandomStyleToggleRoundTrip(st, checked);
  }
}
