/** Kafka topic names for tests: the normaliser and the unique name built from it. */
module TopicNames {
  import opened OrderEvents

  const MAX_TOPIC_NAME_LENGTH := 249

  predicate IsLegal(ch: char) {
    'a' <= ch <= 'z' || '0' <= ch <= '9' || IsSeparator(ch)
  }

  predicate IsSeparator(ch: char) {
    ch == '-' || ch == '_' || ch == '.'
  }

  lemma Letters(ch: char)
    ensures 'a' <= ch <= 'z' <==> ch in "abcdefghijklmnopqrstuvwxyz"
  {
    var letters := "abcdefghijklmnopqrstuvwxyz";
    if 'a' <= ch <= 'z' {
      assert letters[ch as int - 'a' as int] == ch;
    }
  }

  lemma Digits(ch: char)
    ensures '0' <= ch <= '9' <==> ch in "0123456789"
  {
    var digits := "0123456789";
    if '0' <= ch <= '9' {
      assert digits[ch as int - '0' as int] == ch;
    }
  }

  lemma LegalCharacters(ch: char)
    ensures IsLegal(ch) <==> ch in "abcdefghijklmnopqrstuvwxyz" || ch in "0123456789" || ch in "-_."
    ensures IsSeparator(ch) <==> ch in "-_."
  {
    Letters(ch);
    Digits(ch);
  }

  /** The rest of s after its leading run of illegal characters. */
  function SkipIllegal(s: string): (r: string)
    ensures |r| <= |s|
    ensures r != "" ==> IsLegal(r[0])
  {
    if s != "" && !IsLegal(s[0]) then SkipIllegal(s[1..]) else s
  }

  function SkipSeparators(s: string): (r: string)
    ensures |r| <= |s|
    ensures r != "" ==> !IsSeparator(r[0])
    ensures forall ch :: ch in r ==> ch in s
  {
    if s != "" && IsSeparator(s[0]) then SkipSeparators(s[1..]) else s
  }

  /** Each maximal run of illegal characters becomes one hyphen. */
  function ReplaceIllegal(s: string): (r: string)
    ensures forall ch :: ch in r ==> IsLegal(ch)
    decreases |s|
  {
    if s == "" then ""
    else if IsLegal(s[0]) then [s[0]] + ReplaceIllegal(s[1..])
    else "-" + ReplaceIllegal(SkipIllegal(s[1..]))
  }

  /** Each maximal run of two or more separators becomes one hyphen. */
  function CollapseSeparators(s: string): (r: string)
    decreases |s|
  {
    if s == "" then ""
    else if |s| >= 2 && IsSeparator(s[0]) && IsSeparator(s[1]) then "-" + CollapseSeparators(SkipSeparators(s[2..]))
    else [s[0]] + CollapseSeparators(s[1..])
  }

  function TrimRight(s: string): (r: string)
    ensures r <= s
    ensures r != "" ==> !IsSeparator(r[|r| - 1])
  {
    if s != "" && IsSeparator(s[|s| - 1]) then TrimRight(s[..|s| - 1]) else s
  }

  /** `lower` stands for the library's Unicode lower-casing. */
  function Normalize(lower: string -> string, value: string): string {
    TrimRight(SkipSeparators(CollapseSeparators(ReplaceIllegal(lower(value)))))
  }

  /** All that is used of lower-casing: it leaves legal text alone. */
  ghost predicate LowersLegalText(lower: string -> string) {
    forall s :: AllLegal(s) ==> lower(s) == s
  }

  predicate AllLegal(s: string) {
    forall i :: 0 <= i < |s| ==> IsLegal(s[i])
  }

  predicate NoRepeats(s: string) {
    forall i :: 0 <= i < |s| - 1 ==> !(IsSeparator(s[i]) && IsSeparator(s[i + 1]))
  }

  /** Legal characters only, no two separators in a row, none at either end. */
  predicate NormalForm(s: string) {
    && AllLegal(s)
    && NoRepeats(s)
    && (s != "" ==> !IsSeparator(s[0]) && !IsSeparator(s[|s| - 1]))
  }

  lemma {:induction false} CollapsedIsNormal(s: string)
    requires AllLegal(s)
    ensures AllLegal(CollapseSeparators(s)) && NoRepeats(CollapseSeparators(s))
    ensures CollapseSeparators(s) != "" && (s == "" || !IsSeparator(s[0])) ==> !IsSeparator(CollapseSeparators(s)[0])
    decreases |s|
  {
    if s == "" {
    } else if |s| >= 2 && IsSeparator(s[0]) && IsSeparator(s[1]) {
      var rest := SkipSeparators(s[2..]);
      assert AllLegal(rest) by {
        forall i | 0 <= i < |rest| ensures IsLegal(rest[i]) {
          assert rest[i] in s[2..];
        }
      }
      CollapsedIsNormal(rest);
    } else {
      CollapsedIsNormal(s[1..]);
    }
  }

  lemma SuffixKeepsNoRepeats(s: string)
    requires NoRepeats(s) && s != ""
    ensures NoRepeats(s[1..])
  {
    forall i | 0 <= i < |s[1..]| - 1 ensures !(IsSeparator(s[1..][i]) && IsSeparator(s[1..][i + 1])) {
      assert s[1..][i] == s[i + 1];
    }
  }

  lemma {:induction false} SkippedIsNormal(s: string)
    requires AllLegal(s) && NoRepeats(s)
    ensures AllLegal(SkipSeparators(s)) && NoRepeats(SkipSeparators(s))
    decreases |s|
  {
    if s != "" && IsSeparator(s[0]) {
      SuffixKeepsNoRepeats(s);
      SkippedIsNormal(s[1..]);
    }
  }

  /** For every input the result is in normal form. */
  lemma NormalizeGivesNormalForm(lower: string -> string, value: string)
    ensures NormalForm(Normalize(lower, value))
  {
    var legal := ReplaceIllegal(lower(value));
    assert AllLegal(legal);
    CollapsedIsNormal(legal);
    SkippedIsNormal(CollapseSeparators(legal));
    var skipped := SkipSeparators(CollapseSeparators(legal));
    var result := TrimRight(skipped);
    assert result == skipped[..|result|];
  }

  lemma {:induction false} LegalIsKept(s: string)
    requires AllLegal(s)
    ensures ReplaceIllegal(s) == s
    decreases |s|
  {
    if s != "" {
      LegalIsKept(s[1..]);
    }
  }

  lemma {:induction false} UnrepeatedIsKept(s: string)
    requires NoRepeats(s)
    ensures CollapseSeparators(s) == s
    decreases |s|
  {
    if s != "" {
      SuffixKeepsNoRepeats(s);
      UnrepeatedIsKept(s[1..]);
    }
  }

  /** The fixed points of the normaliser are exactly the strings in normal form. */
  lemma FixedPointIffNormalForm(lower: string -> string, s: string)
    requires LowersLegalText(lower)
    ensures Normalize(lower, s) == s <==> NormalForm(s)
  {
    NormalizeGivesNormalForm(lower, s);
    if NormalForm(s) {
      LegalIsKept(s);
      UnrepeatedIsKept(s);
    }
  }

  lemma NormalizeIsIdempotent(lower: string -> string, value: string)
    requires LowersLegalText(lower)
    ensures Normalize(lower, Normalize(lower, value)) == Normalize(lower, value)
  {
    NormalizeGivesNormalForm(lower, value);
    FixedPointIffNormalForm(lower, Normalize(lower, value));
  }

  // ---------- One pass instead of three ----------

  predicate IsWordChar(ch: char) {
    IsLegal(ch) && !IsSeparator(ch)
  }

  predicate StartsWord(s: string) {
    s == "" || IsWordChar(s[0])
  }

  predicate IsGap(s: string) {
    s != "" && forall ch :: ch in s ==> !IsWordChar(ch)
  }

  /** What stands between two words: a lone separator stays, anything else becomes one hyphen. */
  function GapText(gap: string): string {
    if |gap| == 1 && IsSeparator(gap[0]) then gap else "-"
  }

  /** The maximal run of characters other than letters and digits that s begins with. */
  function Gap(s: string): (gap: string)
    ensures gap <= s && StartsWord(s[|gap|..])
    ensures gap != "" ==> IsGap(gap)
  {
    if StartsWord(s) then "" else [s[0]] + Gap(s[1..])
  }

  /** Words as they are, the gaps between them rewritten, the last gap dropped. */
  function Tidy(s: string): string
    decreases |s|
  {
    if s == "" then ""
    else if IsWordChar(s[0]) then [s[0]] + Tidy(s[1..])
    else if Gap(s) == s then ""
    else GapText(Gap(s)) + Tidy(s[|Gap(s)|..])
  }

  /** The normaliser in one pass: drop the first gap, tidy the rest. */
  function Canonical(s: string): string {
    Tidy(s[|Gap(s)|..])
  }

  function Cleaned(s: string): string {
    CollapseSeparators(ReplaceIllegal(s))
  }

  lemma WordIsCleaned(s: string)
    requires s != "" && IsWordChar(s[0])
    ensures Cleaned(s) == [s[0]] + Cleaned(s[1..])
  {
    assert ReplaceIllegal(s)[1..] == ReplaceIllegal(s[1..]);
  }

  lemma {:induction false} SkipStopsAtWord(gap: string, rest: string)
    requires StartsWord(rest) && forall ch :: ch in gap ==> !IsWordChar(ch)
    ensures SkipIllegal(gap + rest) == SkipIllegal(gap) + rest
    ensures forall ch :: ch in SkipIllegal(gap) ==> !IsWordChar(ch)
    decreases |gap|
  {
    if gap == "" {
      assert gap + rest == rest;
    } else if !IsLegal(gap[0]) {
      assert (gap + rest)[1..] == gap[1..] + rest;
      SkipStopsAtWord(gap[1..], rest);
    }
  }

  lemma {:induction false} ReplaceSplits(gap: string, rest: string)
    requires StartsWord(rest) && forall ch :: ch in gap ==> !IsWordChar(ch)
    ensures ReplaceIllegal(gap + rest) == ReplaceIllegal(gap) + ReplaceIllegal(rest)
    decreases |gap|
  {
    if gap == "" {
      assert gap + rest == rest;
    } else {
      assert (gap + rest)[1..] == gap[1..] + rest;
      if IsLegal(gap[0]) {
        ReplaceSplits(gap[1..], rest);
      } else {
        SkipStopsAtWord(gap[1..], rest);
        ReplaceSplits(SkipIllegal(gap[1..]), rest);
      }
    }
  }

  lemma {:induction false} GapReplaced(gap: string)
    requires IsGap(gap)
    ensures ReplaceIllegal(gap) != "" && forall ch :: ch in ReplaceIllegal(gap) ==> IsSeparator(ch)
    ensures if |ReplaceIllegal(gap)| == 1 then ReplaceIllegal(gap) == GapText(gap) else GapText(gap) == "-"
    decreases |gap|
  {
    assert gap[0] in gap;
    var rest := if IsLegal(gap[0]) then gap[1..] else SkipIllegal(gap[1..]);
    SkipStopsAtWord(gap[1..], "");
    if rest != "" {
      GapReplaced(rest);
    }
  }

  lemma {:induction false} SkipsAll(seps: string, rest: string)
    requires (forall ch :: ch in seps ==> IsSeparator(ch)) && (rest == "" || !IsSeparator(rest[0]))
    ensures SkipSeparators(seps + rest) == rest
    decreases |seps|
  {
    if seps == "" {
      assert seps + rest == rest;
    } else {
      assert (seps + rest)[1..] == seps[1..] + rest;
      SkipsAll(seps[1..], rest);
    }
  }

  lemma CollapseRun(seps: string, rest: string)
    requires seps != "" && (forall ch :: ch in seps ==> IsSeparator(ch)) && (rest == "" || !IsSeparator(rest[0]))
    ensures CollapseSeparators(seps + rest) == (if |seps| == 1 then seps else "-") + CollapseSeparators(rest)
  {
    if |seps| == 1 {
      assert (seps + rest)[1..] == rest;
    } else {
      assert (seps + rest)[2..] == seps[2..] + rest;
      SkipsAll(seps[2..], rest);
    }
  }

  lemma GapIsCleaned(gap: string, rest: string)
    requires IsGap(gap) && StartsWord(rest)
    ensures Cleaned(gap + rest) == GapText(gap) + Cleaned(rest)
  {
    ReplaceSplits(gap, rest);
    GapReplaced(gap);
    assert rest != "" ==> !IsSeparator(ReplaceIllegal(rest)[0]);
    CollapseRun(ReplaceIllegal(gap), ReplaceIllegal(rest));
  }

  lemma {:induction false} TrimConcat(a: string, b: string)
    ensures TrimRight(a + b) == if TrimRight(b) == "" then TrimRight(a) else a + TrimRight(b)
    decreases |b|
  {
    if b == "" {
      assert a + b == a;
    } else if IsSeparator(b[|b| - 1]) {
      assert (a + b)[..|a + b| - 1] == a + b[..|b| - 1];
      TrimConcat(a, b[..|b| - 1]);
    }
  }

  lemma {:induction false} TrimmedIsTidy(s: string)
    ensures TrimRight(Cleaned(s)) == Tidy(s)
    ensures s != "" && StartsWord(s) ==> Tidy(s) != ""
    decreases |s|
  {
    if s != "" && IsWordChar(s[0]) {
      WordIsCleaned(s);
      TrimmedIsTidy(s[1..]);
      TrimConcat([s[0]], Cleaned(s[1..]));
    } else if s != "" {
      var gap, rest := Gap(s), s[|Gap(s)|..];
      assert s == gap + rest;
      GapIsCleaned(gap, rest);
      TrimmedIsTidy(rest);
      TrimConcat(GapText(gap), Cleaned(rest));
    }
  }

  /** The three regular-expression passes and the strip amount to the one pass. */
  lemma NormalizeIsCanonical(lower: string -> string, value: string)
    ensures Normalize(lower, value) == Canonical(lower(value))
  {
    var s := lower(value);
    var gap, rest := Gap(s), s[|Gap(s)|..];
    assert s == gap + rest;
    if rest != "" {
      WordIsCleaned(rest);
    }
    if gap == "" {
      assert s == rest;
    } else {
      GapIsCleaned(gap, rest);
    }
    SkipsAll(if gap == "" then "" else GapText(gap), Cleaned(rest));
    assert SkipSeparators(Cleaned(s)) == Cleaned(rest);
    TrimmedIsTidy(rest);
  }

  // ---------- unique_topic_name ----------

  predicate IsHex(s: string) {
    |s| == 12 && forall i :: 0 <= i < |s| ==> '0' <= s[i] <= '9' || 'a' <= s[i] <= 'f'
  }

  function OrElse(s: string, alternative: string): string {
    if s != "" then s else alternative
  }

  /** The normalised uniqueness token; `drawn` and `redrawn` are the random hex strings it may need. */
  function TokenFor(lower: string -> string, token: Option<string>, drawn: string, redrawn: string): string {
    OrElse(Normalize(lower, OrElse(if token.Some? then token.value else "", drawn)), redrawn)
  }

  function Base(lower: string -> string, prefix: string, testName: string): string {
    OrElse(Normalize(lower, prefix + "-" + testName), "order-app-test")
  }

  /** Base cut to the room the token leaves, hyphen, token; None is the ValueError for a token that leaves no room. */
  function Compose(base: string, tok: string): Option<string> {
    var suffix := "-" + tok;
    var available := MAX_TOPIC_NAME_LENGTH - |suffix|;
    if available < 1 then None
    else Some(OrElse(TrimRight(if available < |base| then base[..available] else base), "t") + suffix)
  }

  function UniqueTopicName(
    lower: string -> string, testName: string, prefix: string, token: Option<string>, drawn: string, redrawn: string)
    : Option<string>
  {
    Compose(Base(lower, prefix, testName), TokenFor(lower, token, drawn, redrawn))
  }

  lemma TokenIsNormal(lower: string -> string, token: Option<string>, drawn: string, redrawn: string)
    requires IsHex(redrawn)
    ensures NormalForm(TokenFor(lower, token, drawn, redrawn)) && TokenFor(lower, token, drawn, redrawn) != ""
  {
    NormalizeGivesNormalForm(lower, OrElse(if token.Some? then token.value else "", drawn));
  }

  lemma JoinedIsNormal(a: string, b: string)
    requires NormalForm(a) && NormalForm(b) && a != "" && b != ""
    ensures NormalForm(a + "-" + b)
  {
    var r := a + "-" + b;
    assert r[|a|] == '-';
    forall i | 0 <= i < |r| - 1 ensures !(IsSeparator(r[i]) && IsSeparator(r[i + 1])) {
      if i + 1 < |a| {
        assert r[i] == a[i] && r[i + 1] == a[i + 1];
      } else if i > |a| {
        assert r[i] == b[i - |a| - 1] && r[i + 1] == b[i - |a|];
      }
    }
  }

  lemma FallbackIsNormal()
    ensures NormalForm("order-app-test")
  {
    JoinedIsNormal("app", "test");
    JoinedIsNormal("order", "app" + "-" + "test");
    assert "order" + "-" + ("app" + "-" + "test") == "order-app-test";
  }

  lemma BaseIsNormal(lower: string -> string, prefix: string, testName: string)
    ensures NormalForm(Base(lower, prefix, testName)) && Base(lower, prefix, testName) != ""
  {
    NormalizeGivesNormalForm(lower, prefix + "-" + testName);
    FallbackIsNormal();
  }

  lemma {:induction false} TrimStops(s: string)
    requires s != "" && !IsSeparator(s[0])
    ensures TrimRight(s) != ""
    decreases |s|
  {
    if IsSeparator(s[|s| - 1]) {
      TrimStops(s[..|s| - 1]);
    }
  }

  lemma TrimsAtMostOne(s: string)
    requires NoRepeats(s)
    ensures |TrimRight(s)| >= |s| - 1
    ensures s == "" || !IsSeparator(s[|s| - 1]) ==> TrimRight(s) == s
  {
    if |s| > 1 && IsSeparator(s[|s| - 1]) {
      assert !IsSeparator(s[|s| - 2]);
    }
  }

  /** A normal name cut anywhere and trimmed is normal and not empty, so the "t" fallback is never used. */
  lemma CutIsNormal(base: string, n: nat)
    requires NormalForm(base) && base != "" && 1 <= n <= |base|
    ensures NormalForm(TrimRight(base[..n])) && TrimRight(base[..n]) != ""
    ensures |TrimRight(base[..n])| >= if n == |base| then n else n - 1
  {
    TrimStops(base[..n]);
    TrimsAtMostOne(base[..n]);
    assert base[..|base|] == base;
    var t := TrimRight(base[..n]);
    assert t == base[..|t|];
  }

  /** The base is cut and trimmed to something that is not empty. */
  lemma ComposedIsNormal(base: string, tok: string)
    requires NormalForm(base) && NormalForm(tok) && base != "" && tok != ""
    ensures Compose(base, tok).None? <==> |tok| >= 248
    ensures Compose(base, tok).Some? ==>
              && NormalForm(Compose(base, tok).value)
              && |Compose(base, tok).value| <= MAX_TOPIC_NAME_LENGTH
              && exists head :: IsHeadOf(base, tok, head, Compose(base, tok).value)
  {
    var available := MAX_TOPIC_NAME_LENGTH - |"-" + tok|;
    if available >= 1 {
      var n := if available < |base| then available else |base|;
      assert base[..|base|] == base;
      CutIsNormal(base, n);
      var head := TrimRight(base[..n]);
      JoinedIsNormal(head, tok);
      hide NormalForm, TrimRight;
      assert head + "-" + tok == head + ("-" + tok);
      assert IsHeadOf(base, tok, head, Compose(base, tok).value);
    }
  }

  /** The name keeps the whole base if it fits, else as much of it as fits, less at most one trailing separator. */
  predicate IsHeadOf(base: string, tok: string, head: string, name: string) {
    && head != "" && head <= base && name == head + "-" + tok
    && if |base + "-" + tok| <= MAX_TOPIC_NAME_LENGTH then head == base else |name| >= MAX_TOPIC_NAME_LENGTH - 1
  }

  /**
   Every name that is returned is a fixed point of the normaliser of at most 249 characters: a part of the base, a
   hyphen and the token, never the "t" fallback. The error is raised exactly for tokens of 248 characters or more.
   */
  lemma UniqueNameIsNormal(
    lower: string -> string, testName: string, prefix: string, token: Option<string>, drawn: string, redrawn: string)
    requires LowersLegalText(lower) && IsHex(redrawn)
    ensures
      var name := UniqueTopicName(lower, testName, prefix, token, drawn, redrawn);
      var tok := TokenFor(lower, token, drawn, redrawn);
      && (name.None? <==> |tok| >= 248)
      && (name.Some? ==>
            && NormalForm(name.value)
            && Normalize(lower, name.value) == name.value
            && |name.value| <= MAX_TOPIC_NAME_LENGTH
            && exists head :: IsHeadOf(Base(lower, prefix, testName), tok, head, name.value))
  {
    TokenIsNormal(lower, token, drawn, redrawn);
    BaseIsNormal(lower, prefix, testName);
    ComposedIsNormal(Base(lower, prefix, testName), TokenFor(lower, token, drawn, redrawn));
    var name := UniqueTopicName(lower, testName, prefix, token, drawn, redrawn);
    if name.Some? {
      FixedPointIffNormalForm(lower, name.value);
    }
  }

  lemma HexTokenIsKept(lower: string -> string, drawn: string, redrawn: string)
    requires LowersLegalText(lower) && IsHex(drawn)
    ensures TokenFor(lower, None, drawn, redrawn) == drawn && NormalForm(drawn)
  {
    assert NormalForm(drawn);
    FixedPointIffNormalForm(lower, drawn);
  }

  lemma EndsWithToken(base: string, tok: string)
    requires Compose(base, tok).Some?
    ensures |tok| <= |Compose(base, tok).value|
    ensures Compose(base, tok).value[|Compose(base, tok).value| - |tok|..] == tok
  {
  }

  /**
   A supplied token ends the name unless nothing of it is legal; then, and without one, a random token does. The name
   begins with what prefix and test name come to, unless that is nothing.
   */
  lemma NameShowsItsInputs(
    lower: string -> string, testName: string, prefix: string, token: Option<string>, drawn: string, redrawn: string)
    requires LowersLegalText(lower) && IsHex(drawn) && IsHex(redrawn)
    ensures
      var name := UniqueTopicName(lower, testName, prefix, token, drawn, redrawn);
      var supplied := token.Some? && token.value != "";
      var whole := Canonical(lower(prefix + "-" + testName));
      exists tok ::
        && (supplied && Canonical(lower(token.value)) != "" ==> tok == Canonical(lower(token.value)))
        && (supplied && Canonical(lower(token.value)) == "" ==> tok == redrawn)
        && (!supplied ==> tok == drawn)
        && (name.None? <==> |tok| >= 248)
        && (name.Some? && whole != "" ==> exists head :: IsHeadOf(whole, tok, head, name.value))
        && (name.Some? && whole == "" ==> exists head :: IsHeadOf("order-app-test", tok, head, name.value))
  {
    hide NormalForm, Canonical, IsHeadOf;
    UniqueNameIsNormal(lower, testName, prefix, token, drawn, redrawn);
    HexTokenIsKept(lower, drawn, redrawn);
    NormalizeIsCanonical(lower, prefix + "-" + testName);
    if token.Some? {
      NormalizeIsCanonical(lower, token.value);
    }
    var tok := TokenFor(lower, token, drawn, redrawn);
  }

  /** Names drawn with different random tokens differ, whatever the tests are called. */
  lemma RandomNamesAreDistinct(
    lower: string -> string, testName: string, testName': string, prefix: string, prefix': string,
    drawn: string, drawn': string, redrawn: string)
    requires LowersLegalText(lower) && IsHex(drawn) && IsHex(drawn') && drawn != drawn'
    ensures UniqueTopicName(lower, testName, prefix, None, drawn, redrawn)
            != UniqueTopicName(lower, testName', prefix', None, drawn', redrawn)
  {
    HexTokenIsKept(lower, drawn, redrawn);
    HexTokenIsKept(lower, drawn', redrawn);
    EndsWithToken(Base(lower, prefix, testName), drawn);
    EndsWithToken(Base(lower, prefix', testName'), drawn');
  }
}
