/** Accessibility settings: font size, dark mode, language and read-aloud,
    the partial update that merges into them, the rewrite of the page's
    class attribute they drive, and the choice of speech language. */
module Accessibility {
  import opened Wrappers

  datatype FontSize = Small | Medium | Large

  function FontSizeName(f: FontSize): string {
    match f
    case Small => "small"
    case Medium => "medium"
    case Large => "large"
  }

  datatype Language = En | Hi

  datatype Settings = Settings(fontSize: FontSize, darkMode: bool, language: Language, textToSpeech: bool)

  /** The settings of a user with nothing saved. */
  const Default := Settings(Medium, false, En, false)

  /** `Partial<AccessibilitySettings>`: the fields a caller chose to set. */
  datatype SettingsPatch = SettingsPatch(
    fontSize: Option<FontSize>,
    darkMode: Option<bool>,
    language: Option<Language>,
    textToSpeech: Option<bool>)

  const NoChange := SettingsPatch(None, None, None, None)

  /** `{ ...prev, ...newSettings }`: every field present in the patch wins;
      every other field keeps its value. */
  function Merge(s: Settings, p: SettingsPatch): (r: Settings)
    ensures r.fontSize == p.fontSize.GetOr(s.fontSize)
    ensures r.darkMode == p.darkMode.GetOr(s.darkMode)
    ensures r.language == p.language.GetOr(s.language)
    ensures r.textToSpeech == p.textToSpeech.GetOr(s.textToSpeech)
  {
    Settings(p.fontSize.GetOr(s.fontSize), p.darkMode.GetOr(s.darkMode),
             p.language.GetOr(s.language), p.textToSpeech.GetOr(s.textToSpeech))
  }

  /** Two patches one after the other: the later one wins field by field. */
  function Then(p: SettingsPatch, q: SettingsPatch): SettingsPatch {
    SettingsPatch(
      if q.fontSize.Some? then q.fontSize else p.fontSize,
      if q.darkMode.Some? then q.darkMode else p.darkMode,
      if q.language.Some? then q.language else p.language,
      if q.textToSpeech.Some? then q.textToSpeech else p.textToSpeech)
  }

  /** An empty patch changes nothing, a patch applied twice is applied
      once, and two updates are one update with the combined patch. */
  lemma MergeLaws(s: Settings, p: SettingsPatch, q: SettingsPatch)
    ensures Merge(s, NoChange) == s
    ensures Merge(Merge(s, p), p) == Merge(s, p)
    ensures Merge(Merge(s, p), q) == Merge(s, Then(p, q))
  {
  }

  /** A patch that sets every field gives the same settings whatever they
      were before. */
  lemma FullPatchForgetsOld(s: Settings, t: Settings, p: SettingsPatch)
    requires p.fontSize.Some? && p.darkMode.Some? && p.language.Some? && p.textToSpeech.Some?
    ensures Merge(s, p) == Merge(t, p)
  {
  }

  class SettingsStore {
    var settings: Settings

    /** The saved settings if there are any, otherwise the defaults. */
    constructor(saved: Option<Settings>)
      ensures saved.None? ==> settings == Default
      ensures saved.Some? ==> settings == saved.value
    {
      settings := saved.GetOr(Default);
    }

    /** `updateSettings`. */
    method UpdateSettings(p: SettingsPatch)
      modifies this
      ensures settings == Merge(old(settings), p)
    {
      settings := Merge(settings, p);
    }
  }

  // ---------------------------------------------------------------------
  // Reading aloud

  datatype Utterance = Utterance(text: string, lang: string)

  function LangTag(l: Language): string {
    if l == Hi then "hi-IN" else "en-US"
  }

  /** `speakText`: the utterance handed to the speech engine, if any. There
      is one exactly when read-aloud is on and the browser has speech
      synthesis; it carries the text unchanged and the language tag of the
      chosen language. */
  function Speak(s: Settings, synthesisAvailable: bool, text: string): (u: Option<Utterance>)
    ensures u.Some? <==> s.textToSpeech && synthesisAvailable
    ensures u.Some? ==> u.value.text == text
    ensures u.Some? ==> (u.value.lang == "hi-IN" <==> s.language == Hi)
    ensures u.Some? ==> (u.value.lang == "en-US" <==> s.language == En)
  {
    if s.textToSpeech && synthesisAvailable then Some(Utterance(text, LangTag(s.language))) else None
  }

  // ---------------------------------------------------------------------
  // The dark class

  function RemoveAll(tokens: seq<string>, x: string): (r: seq<string>)
    ensures x !in r
    ensures forall y :: y != x ==> (y in r <==> y in tokens)
    decreases |tokens|
  {
    if tokens == [] then []
    else (if tokens[0] == x then [] else [tokens[0]]) + RemoveAll(tokens[1..], x)
  }

  /** `classList.add('dark')` or `classList.remove('dark')`: the class is
      present exactly when dark mode is on, and no other class changes. */
  function ApplyDark(tokens: seq<string>, darkMode: bool): (r: seq<string>)
    ensures "dark" in r <==> darkMode
    ensures forall y :: y != "dark" ==> (y in r <==> y in tokens)
  {
    if darkMode then (if "dark" in tokens then tokens else tokens + ["dark"])
    else RemoveAll(tokens, "dark")
  }

  // ---------------------------------------------------------------------
  // The font-size class

  /** `\w`: a letter, a digit or an underscore. */
  predicate IsWordChar(c: char) {
    ('a' <= c <= 'z') || ('A' <= c <= 'Z') || ('0' <= c <= '9') || c == '_'
  }

  /** A match of `font-size-\w+` starts at `p`. */
  predicate TokenAt(s: string, p: int) {
    0 <= p && p + 10 < |s| && s[p..p + 10] == "font-size-" && IsWordChar(s[p + 10])
  }

  predicate HasToken(s: string) {
    exists p | 0 <= p < |s| :: TokenAt(s, p)
  }

  /** The length of the run of word characters `\w+` takes, greedily. */
  function WordRun(s: string): (n: nat)
    ensures n <= |s|
    ensures forall i :: 0 <= i < n ==> IsWordChar(s[i])
    ensures n == |s| || !IsWordChar(s[n])
    decreases |s|
  {
    if s == [] || !IsWordChar(s[0]) then 0 else 1 + WordRun(s[1..])
  }

  /** `replace(/font-size-\w+/g, '')`: one left-to-right scan that deletes
      each match and resumes after it. */
  function StripPass(s: string): (r: string)
    ensures |r| <= |s|
    decreases |s|
  {
    if s == [] then []
    else if TokenAt(s, 0) then StripPass(s[10 + WordRun(s[10..])..])
    else [s[0]] + StripPass(s[1..])
  }

  /** A scan over text without a match changes nothing. */
  lemma {:induction false} StripPassWithoutMatch(s: string)
    requires !HasToken(s)
    ensures StripPass(s) == s
    decreases |s|
  {
    if s != [] {
      forall p | 0 <= p < |s| - 1 && TokenAt(s[1..], p) ensures TokenAt(s, p + 1) {
        assert s[1..][p..p + 10] == s[p + 1..p + 11];
      }
      StripPassWithoutMatch(s[1..]);
    }
  }

  /** A scan over text that holds a match deletes something. */
  lemma {:induction false} StripPassShrinks(s: string)
    requires HasToken(s)
    ensures |StripPass(s)| < |s|
    decreases |s|
  {
    var p :| 0 <= p < |s| && TokenAt(s, p);
    if !TokenAt(s, 0) {
      assert p > 0;
      assert s[1..][p - 1..p - 1 + 10] == s[p..p + 10];
      assert TokenAt(s[1..], p - 1);
      StripPassShrinks(s[1..]);
    }
  }

  /** The class attribute after the effect, as written: one scan, then the
      new class appended after a space. */
  function FontClassAsWritten(className: string, size: FontSize): (r: string)
    ensures TokenAt(r, |StripPass(className)| + 1)
  {
    AppendedToken(StripPass(className), FontSizeName(size));
    StripPass(className) + " font-size-" + FontSizeName(size)
  }

  /** The scan repeated until no match is left. */
  function StripAll(s: string): (r: string)
    ensures !HasToken(r)
    decreases |s|
  {
    if HasToken(s) then
      StripPassShrinks(s);
      StripAll(StripPass(s))
    else s
  }

  /** The class attribute with every old font-size class removed: the
      stripped text, free of matches, then the new class after a space. */
  function FontClass(className: string, size: FontSize): (r: string)
    ensures |StripAll(className)| < |r| && !HasToken(r[..|StripAll(className)|])
    ensures TokenAt(r, |StripAll(className)| + 1)
  {
    var stripped := StripAll(className);
    AppendedToken(stripped, FontSizeName(size));
    assert (stripped + " font-size-" + FontSizeName(size))[..|stripped|] == stripped;
    stripped + " font-size-" + FontSizeName(size)
  }

  /** After the corrected rewrite the class attribute holds exactly one
      font-size class, the appended one at its end. */
  lemma FontClassHasOneToken(className: string, size: FontSize)
    ensures forall p :: TokenAt(FontClass(className, size), p) <==> p == |StripAll(className)| + 1
  {
    var s := StripAll(className);
    var name := FontSizeName(size);
    assert FontClass(className, size) == s + " font-size-" + name;
    OnlyAppendedToken(s, name);
    AppendedToken(s, name);
  }

  lemma AppendedToken(s: string, name: string)
    requires name != [] && IsWordChar(name[0])
    ensures TokenAt(s + " font-size-" + name, |s| + 1)
  {
    var r := s + " font-size-" + name;
    var q := |s| + 1;
    assert r[q..q + 10] == "font-size-";
    assert r[q + 10] == name[0];
  }

  /** No match starts inside the stripped text or across its end, because
      the size name holds neither an `f` nor a space. */
  lemma OnlyAppendedToken(s: string, name: string)
    requires !HasToken(s)
    requires forall k :: 0 <= k < |name| ==> name[k] != 'f' && name[k] != ' '
    ensures forall p :: TokenAt(s + " font-size-" + name, p) ==> p == |s| + 1
  {
    var tail := " font-size-" + name;
    var r := s + " font-size-" + name;
    assert r == s + tail;
    forall p | TokenAt(r, p) ensures p == |s| + 1 {
      assert r[p] == 'f';
      if p + 11 <= |s| {
        assert r[p..p + 11] == s[p..p + 11];
        assert TokenAt(s, p);
      }
      assert p + 11 > |s|;
      forall q | p <= q <= p + 10 ensures r[q] != ' ' {
        if q < p + 10 {
          assert r[q] == r[p..p + 10][q - p];
        }
      }
      assert r[|s|] == ' ';
      assert p > |s|;
      assert tail[p - |s|] == 'f';
    }
  }

  /** A match at `i` in the tail is a match at `i + 1` in the text. */
  lemma TailTokens(s: string, k: nat)
    requires 0 < k <= |s|
    requires forall i :: 0 <= i < k ==> !TokenAt(s, i)
    ensures !TokenAt(s, 0)
    ensures forall i :: 0 <= i < k - 1 ==> !TokenAt(s[1..], i)
  {
    forall i | 0 <= i < k - 1 ensures !TokenAt(s[1..], i) {
      assert !TokenAt(s, i + 1);
      if i + 11 <= |s[1..]| {
        assert s[1..][i..i + 10] == s[i + 1..i + 11];
      }
    }
  }

  /** Where no match starts, the scan copies one character. */
  lemma StripPassCopies(s: string)
    requires s != [] && !TokenAt(s, 0)
    ensures StripPass(s) == [s[0]] + StripPass(s[1..])
  {
  }

  /** The scan copies a prefix in which no match starts. */
  lemma {:induction false} StripPassKeepsPrefix(s: string, k: nat)
    requires k <= |s|
    requires forall i :: 0 <= i < k ==> !TokenAt(s, i)
    ensures StripPass(s) == s[..k] + StripPass(s[k..])
    decreases k
  {
    if k > 0 {
      var t := s[1..];
      StripPassCopies(s);
      TailTokens(s, k);
      StripPassKeepsPrefix(t, k - 1);
      assert t[k - 1..] == s[k..];
      assert [s[0]] + t[..k - 1] == s[..k];
    } else {
      assert s[..0] == [] && s[0..] == s;
    }
  }

  /** The class attribute the code produces can keep an old font-size
      class: deleting one match can bring the pieces of another together. */
  lemma FontClassAsWrittenKeepsStaleToken()
    ensures TokenAt(FontClassAsWritten("font-sizefont-size-a-b", Large), 0)
  {
    StaleScanPrefix();
    StaleScanMatch();
    StaleResult();
  }

  /** The class attribute left by the scan starts with a whole match. */
  lemma StaleResult()
    ensures TokenAt("font-size" + "-b" + " font-size-" + "large", 0)
  {
    var r := "font-size" + "-b" + " font-size-" + "large";
    assert r[..10] == "font-size-" && r[10] == 'b';
  }

  lemma StaleScanPrefix()
    ensures StripPass("font-sizefont-size-a-b") == "font-size" + StripPass("font-size-a-b")
  {
    var s := "font-sizefont-size-a-b";
    NoMatchInStalePrefix();
    StripPassKeepsPrefix(s, 9);
    StaleSlices();
  }

  lemma StaleSlices()
    ensures "font-sizefont-size-a-b"[..9] == "font-size"
    ensures "font-sizefont-size-a-b"[9..] == "font-size-a-b"
  {
  }

  lemma NoMatchInStalePrefix()
    ensures forall i :: 0 <= i < 9 ==> !TokenAt("font-sizefont-size-a-b", i)
  {
    var s := "font-sizefont-size-a-b";
    forall i | 0 <= i < 9 ensures !TokenAt(s, i) {
      if i == 0 {
        assert s[0..10][9] == s[9] == 'f';
      } else {
        assert i == 1 || i == 2 || i == 3 || i == 4 || i == 5 || i == 6 || i == 7 || i == 8;
        assert s[i..i + 10][0] == s[i] != 'f';
      }
    }
  }

  lemma StaleScanMatch()
    ensures StripPass("font-size-a-b") == "-b"
  {
    var t := "font-size-a-b";
    assert TokenAt(t, 0);
    assert t[10..] == "a-b";
    assert WordRun("a-b") == 1;
    assert t[11..] == "-b";
    assert StripPass("-b") == "-b";
  }
}
