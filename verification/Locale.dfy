/** Interface-locale resolution: the deployment's locale settings, Accept-Language, and the chain of sources. */
module Locale {
  import opened Common
  import opened Text

  // ----- Settings

  datatype Settings = Settings(available: string, default: string)
  datatype Validation = Valid(settings: Settings) | NoLocales | BadCode(entry: string) | UnknownDefault

  function EntryOf(part: string): seq<string> {
    if Strip(part) == [] then [] else [Lower(Strip(part))]
  }

  function Entries(parts: seq<string>): seq<string> {
    if parts == [] then [] else EntryOf(parts[0]) + Entries(parts[1..])
  }

  /** AVAILABLE_LOCALES as an ordered list. */
  function AvailableLocales(s: Settings): seq<string> {
    Entries(Split(s.available, ','))
  }

  predicate TwoLetters(code: string) {
    |code| == 2 && forall c :: c in code ==> 'a' <= c <= 'z'
  }

  method FirstBadCode(codes: seq<string>) returns (bad: Option<string>)
    ensures bad.None? ==> forall c :: c in codes ==> TwoLetters(c)
    ensures bad.Some? ==> bad.value in codes && !TwoLetters(bad.value)
  {
    for i := 0 to |codes|
      invariant forall c :: c in codes[..i] ==> TwoLetters(c)
    {
      if !TwoLetters(codes[i]) {
        return Some(codes[i]);
      }
    }
    return None;
  }

  ghost predicate WellConfigured(s: Settings) {
    && AvailableLocales(s) != [] && (forall c :: c in AvailableLocales(s) ==> TwoLetters(c))
    && s.default in AvailableLocales(s)
  }

  /** Blank settings mean unset: `en`, and the first available locale as the default. */
  method ValidateLocales(given: Settings) returns (v: Validation)
    ensures v.Valid? ==> WellConfigured(v.settings)
    ensures v.Valid? ==> v.settings.available == if Strip(given.available) == [] then "en" else given.available
    ensures v.Valid? && Lower(Strip(given.default)) == [] ==> v.settings.default == AvailableLocales(v.settings)[0]
    ensures v.Valid? && Lower(Strip(given.default)) != [] ==> v.settings.default == Lower(Strip(given.default))
    ensures var s := if Strip(given.available) == [] then given.(available := "en") else given;
            v.Valid? <==> && AvailableLocales(s) != [] && (forall c :: c in AvailableLocales(s) ==> TwoLetters(c))
                          && (Lower(Strip(given.default)) == [] || Lower(Strip(given.default)) in AvailableLocales(s))
  {
    var s := if Strip(given.available) == [] then given.(available := "en") else given;
    var locales := AvailableLocales(s);
    if locales == [] {
      return NoLocales;
    }
    var bad := FirstBadCode(locales);
    if bad.Some? {
      return BadCode(bad.value);
    }
    s := s.(default := Lower(Strip(s.default)));
    assert AvailableLocales(s) == locales;
    if s.default == [] {
      s := s.(default := locales[0]);
      assert AvailableLocales(s) == locales;
    }
    return if s.default in locales then Valid(s) else UnknownDefault;
  }

  // ----- Locale tags

  function UpToSubtag(tag: string): string {
    if tag == [] || tag[0] == '-' || tag[0] == '_' then [] else [tag[0]] + UpToSubtag(tag[1..])
  }

  /** The supported locale a tag's primary subtag names, if any. */
  function Normalize(locales: seq<string>, tag: Option<string>): (locale: Option<string>)
    ensures locale.Some? ==> locale.value in locales
  {
    if tag.GetOr([]) == [] then None
    else
      var primary := UpToSubtag(Lower(Strip(tag.value)));
      if primary in locales then Some(primary) else None
  }

  predicate SubtagSeparator(c: char) {
    c == '-' || c == '_'
  }

  /** `primary` is the text up to the first separator, or all of it. */
  predicate IsPrimarySubtag(primary: string, text: string) {
    && primary <= text && (forall c :: c in primary ==> !SubtagSeparator(c))
    && (|primary| < |text| ==> SubtagSeparator(text[|primary|]))
  }

  lemma NotLonger(primary: string, other: string, text: string)
    requires IsPrimarySubtag(primary, text) && IsPrimarySubtag(other, text)
    ensures |primary| <= |other|
  {
    assert forall i :: 0 <= i < |primary| ==> primary[i] in primary && primary[i] == text[i];
  }

  lemma {:induction false} UpToSubtagIsPrimary(text: string, primary: string)
    ensures IsPrimarySubtag(UpToSubtag(text), text)
    ensures UpToSubtag(text) == primary <==> IsPrimarySubtag(primary, text)
  {
    if text != [] && !SubtagSeparator(text[0]) {
      UpToSubtagIsPrimary(text[1..], UpToSubtag(text[1..]));
      assert text == [text[0]] + text[1..];
    }
    if IsPrimarySubtag(primary, text) {
      NotLonger(primary, UpToSubtag(text), text);
      NotLonger(UpToSubtag(text), primary, text);
    }
  }

  /** A tag is mapped onto a locale exactly when that is available and the tag's primary subtag, in any case. */
  lemma NormalizeIsPrimary(locales: seq<string>, tag: Option<string>, l: string)
    ensures Normalize(locales, tag) == Some(l) <==>
            tag.Some? && tag.value != [] && l in locales && IsPrimarySubtag(l, Lower(Strip(tag.value)))
  {
    if tag.Some? {
      UpToSubtagIsPrimary(Lower(Strip(tag.value)), l);
    }
    hide IsPrimarySubtag, UpToSubtag, Lower, Strip;
  }

  // ----- Quality values

  predicate IsDigit(c: char) {
    '0' <= c <= '9'
  }

  /** The expression `^q=(0(\.\d{0,3})?|1(\.0{0,3})?)$` on a lowered parameter. */
  predicate MatchesQuality(s: string) {
    && 3 <= |s| <= 7 && s[0] == 'q' && s[1] == '=' && (s[2] == '0' || s[2] == '1')
    && (|s| > 3 ==> s[3] == '.')
    && forall i :: 4 <= i < |s| ==> if s[2] == '0' then IsDigit(s[i]) else s[i] == '0'
  }

  /** The `weight` of RFC 9110, section 12.4.2: "0" with up to three digits, or "1" with up to three zeros. */
  ghost predicate IsWeight(s: string) {
    exists digits: string :: |digits| <= 3 && (forall c :: c in digits ==> IsDigit(c)) &&
      (s == "q=0" || s == "q=1" || s == "q=0." + digits
       || (s == "q=1." + digits && forall c :: c in digits ==> c == '0'))
  }

  lemma MatchIsWeight(s: string)
    requires MatchesQuality(s)
    ensures IsWeight(s)
  {
    var digits := if |s| > 4 then s[4..] else "";
    assert |s| == 3 ==> s == (if s[2] == '0' then "q=0" else "q=1");
    assert |s| > 3 ==> s == (if s[2] == '0' then "q=0." else "q=1.") + digits;
    assert forall c :: c in digits ==> IsDigit(c);
  }

  lemma WeightMatches(s: string)
    requires IsWeight(s)
    ensures MatchesQuality(s)
  {
    var digits: string :| |digits| <= 3 && (forall c :: c in digits ==> IsDigit(c)) &&
      (s == "q=0" || s == "q=1" || s == "q=0." + digits
       || (s == "q=1." + digits && forall c :: c in digits ==> c == '0'));
    assert |s| >= 4 ==> s[..4] == (if s[2] == '0' then "q=0." else "q=1.") && s[4..] == digits;
    forall i | 4 <= i < |s| ensures if s[2] == '0' then IsDigit(s[i]) else s[i] == '0' {
      assert s[i] == digits[i - 4] && digits[i - 4] in digits;
    }
  }

  lemma QualityGrammar(s: string)
    ensures MatchesQuality(s) <==> IsWeight(s)
  {
    hide MatchesQuality, IsWeight;
    if MatchesQuality(s) {
      MatchIsWeight(s);
    } else if IsWeight(s) {
      WeightMatches(s);
    }
  }

  function Digit(s: string, i: nat): nat {
    if i < |s| && IsDigit(s[i]) then s[i] as int - '0' as int else 0
  }

  /** `float(s[2:])` in thousandths. */
  function Thousandths(s: string): nat {
    1000 * Digit(s, 2) + 100 * Digit(s, 4) + 10 * Digit(s, 5) + Digit(s, 6)
  }

  function Render(n: nat): string
    requires n < 10
  {
    [('0' as int + n) as char]
  }

  /** Every quality in thousandths can be written, and is read back as itself. */
  lemma QualityRoundTrip(n: nat)
    requires n <= 1000
    ensures var s := "q=" + Render(n / 1000) + "." + Render(n / 100 % 10) + Render(n / 10 % 10) + Render(n % 10);
            MatchesQuality(s) && Thousandths(s) == n
  {
    var s := "q=" + Render(n / 1000) + "." + Render(n / 100 % 10) + Render(n / 10 % 10) + Render(n % 10);
    assert MatchesQuality(s) by {
      hide Thousandths;
    }
    hide MatchesQuality;
    assert Digit(s, 2) == n / 1000 && Digit(s, 4) == n / 100 % 10 && Digit(s, 5) == n / 10 % 10
           && Digit(s, 6) == n % 10;
    hide Digit, Render;
    Decimals(n);
  }

  lemma Decimals(n: nat)
    ensures n == 1000 * (n / 1000) + 100 * (n / 100 % 10) + 10 * (n / 10 % 10) + n % 10
  {
    assert n == 10 * (n / 10) + n % 10;
    assert n / 100 == n / 10 / 10 && n / 1000 == n / 100 / 10;
  }

  // ----- Accept-Language

  datatype Weighted = Weighted(quality: nat, tag: string)

  /** The first `q=` parameter decides; a malformed one rejects its tag, and none means full quality. */
  function QualityOf(params: seq<string>): nat {
    if params == [] then 1000
    else
      var lowered := Lower(Strip(params[0]));
      if StartsWith(lowered, "q=") then (if MatchesQuality(lowered) then Thousandths(lowered) else 0)
      else QualityOf(params[1..])
  }

  function ReadPart(part: string): Option<Weighted> {
    var segments := Split(Strip(part), ';');
    var tag := Strip(segments[0]);
    if tag == [] || tag == "*" || QualityOf(segments[1..]) == 0 then None
    else Some(Weighted(QualityOf(segments[1..]), tag))
  }

  /** The tags a header admits, in header order. */
  function Admitted(parts: seq<string>): seq<Weighted> {
    if parts == [] then []
    else
      var before := Admitted(parts[..|parts| - 1]);
      match ReadPart(parts[|parts| - 1])
      case None => before
      case Some(w) => before + [w]
  }

  // The library's stable sort by descending quality: each item goes after all that weigh at least as much.

  function Insert(sorted: seq<Weighted>, w: Weighted): seq<Weighted> {
    if sorted == [] || sorted[0].quality < w.quality then [w] + sorted
    else [sorted[0]] + Insert(sorted[1..], w)
  }

  function StableSort(ws: seq<Weighted>): seq<Weighted> {
    if ws == [] then [] else Insert(StableSort(ws[..|ws| - 1]), ws[|ws| - 1])
  }

  ghost predicate Descending(ws: seq<Weighted>) {
    forall i, j :: 0 <= i < j < |ws| ==> ws[i].quality >= ws[j].quality
  }

  function OfQuality(ws: seq<Weighted>, q: nat): seq<Weighted> {
    if ws == [] then [] else (if ws[0].quality == q then [ws[0]] else []) + OfQuality(ws[1..], q)
  }

  lemma {:induction false} InsertAdds(sorted: seq<Weighted>, w: Weighted)
    ensures multiset(Insert(sorted, w)) == multiset(sorted) + multiset{w}
  {
    if sorted != [] && sorted[0].quality >= w.quality {
      assert sorted == [sorted[0]] + sorted[1..];
      InsertAdds(sorted[1..], w);
    }
  }

  lemma InsertHolds(sorted: seq<Weighted>, w: Weighted, x: Weighted)
    ensures x in Insert(sorted, w) <==> x in sorted || x == w
  {
    InsertAdds(sorted, w);
    hide Insert;
    assert x in Insert(sorted, w) <==> x in multiset(Insert(sorted, w));
  }

  lemma {:induction false} InsertDescends(sorted: seq<Weighted>, w: Weighted)
    requires Descending(sorted)
    ensures Descending(Insert(sorted, w))
  {
    if sorted != [] && sorted[0].quality >= w.quality {
      InsertDescends(sorted[1..], w);
      var rest := Insert(sorted[1..], w);
      forall x | x in rest ensures x.quality <= sorted[0].quality {
        InsertHolds(sorted[1..], w, x);
      }
    }
  }

  lemma {:induction false} InsertIsStable(sorted: seq<Weighted>, w: Weighted, q: nat)
    requires Descending(sorted)
    ensures OfQuality(Insert(sorted, w), q) == OfQuality(sorted, q) + if w.quality == q then [w] else []
  {
    if sorted == [] || sorted[0].quality < w.quality {
      assert ([w] + sorted)[1..] == sorted;
      if w.quality == q {
        NoneOfQuality(sorted, q);
      }
    } else {
      InsertIsStable(sorted[1..], w, q);
      var rest := Insert(sorted[1..], w);
      assert ([sorted[0]] + rest)[1..] == rest;
    }
  }

  lemma {:induction false} NoneOfQuality(ws: seq<Weighted>, q: nat)
    requires forall w :: w in ws ==> w.quality < q
    ensures OfQuality(ws, q) == []
  {
    if ws != [] {
      NoneOfQuality(ws[1..], q);
    }
  }

  lemma {:induction false} OfQualityAppend(ws: seq<Weighted>, w: Weighted, q: nat)
    ensures OfQuality(ws + [w], q) == OfQuality(ws, q) + if w.quality == q then [w] else []
  {
    if ws != [] {
      assert (ws + [w])[1..] == ws[1..] + [w];
      OfQualityAppend(ws[1..], w, q);
    }
  }

  lemma {:induction false} SortDescends(ws: seq<Weighted>)
    ensures Descending(StableSort(ws))
  {
    if ws != [] {
      SortDescends(ws[..|ws| - 1]);
      InsertDescends(StableSort(ws[..|ws| - 1]), ws[|ws| - 1]);
    }
  }

  lemma {:induction false} SortPermutes(ws: seq<Weighted>)
    ensures multiset(StableSort(ws)) == multiset(ws)
  {
    if ws != [] {
      SortPermutes(ws[..|ws| - 1]);
      InsertAdds(StableSort(ws[..|ws| - 1]), ws[|ws| - 1]);
      assert ws == ws[..|ws| - 1] + [ws[|ws| - 1]];
    }
  }

  lemma {:induction false} SortKeepsTies(ws: seq<Weighted>, q: nat)
    ensures OfQuality(StableSort(ws), q) == OfQuality(ws, q)
  {
    if ws != [] {
      var before, w := ws[..|ws| - 1], ws[|ws| - 1];
      hide OfQuality, Descending, Insert;
      SortKeepsTies(before, q);
      SortDescends(before);
      InsertIsStable(StableSort(before), w, q);
      assert ws == before + [w];
      OfQualityAppend(before, w, q);
    }
  }

  /** The order of preference: by descending quality, the same tags, ties in header order. */
  lemma SortIsStable(ws: seq<Weighted>, q: nat)
    ensures Descending(StableSort(ws)) && multiset(StableSort(ws)) == multiset(ws)
    ensures OfQuality(StableSort(ws), q) == OfQuality(ws, q)
  {
    SortDescends(ws);
    SortPermutes(ws);
    SortKeepsTies(ws, q);
  }

  function Tags(ws: seq<Weighted>): seq<string> {
    seq(|ws|, i requires 0 <= i < |ws| => ws[i].tag)
  }

  method ParseAcceptLanguage(header: Option<string>) returns (tags: seq<string>)
    ensures tags == if header.GetOr([]) == [] then [] else Tags(StableSort(Admitted(Split(header.value, ','))))
  {
    if header.GetOr([]) == [] {
      return [];
    }
    var parts := Split(header.value, ',');
    var weighted: seq<Weighted> := [];
    for i := 0 to |parts|
      invariant weighted == Admitted(parts[..i])
    {
      assert parts[..i + 1][..i] == parts[..i];
      var read := ReadPart(parts[i]);
      if read.Some? {
        weighted := weighted + [read.value];
      }
    }
    assert parts[..|parts|] == parts;
    return Tags(StableSort(weighted));
  }

  // ----- The chosen locale

  function FirstSupported(locales: seq<string>, tags: seq<string>): Option<string> {
    if tags == [] then None
    else if Normalize(locales, Some(tags[0])).Some? then Normalize(locales, Some(tags[0]))
    else FirstSupported(locales, tags[1..])
  }

  predicate Supported(locales: seq<string>, w: Weighted) {
    Normalize(locales, Some(w.tag)).Some?
  }

  /** Entry `best` is supported, outweighs every supported entry before it, and no later one outweighs it. */
  ghost predicate IsBest(locales: seq<string>, ws: seq<Weighted>, best: int) {
    && 0 <= best < |ws| && Supported(locales, ws[best])
    && (forall i :: 0 <= i < best && Supported(locales, ws[i]) ==> ws[i].quality < ws[best].quality)
    && (forall i :: best < i < |ws| && Supported(locales, ws[i]) ==> ws[i].quality <= ws[best].quality)
  }

  function FirstWeighted(locales: seq<string>, ws: seq<Weighted>): Option<Weighted> {
    if ws == [] then None
    else if Supported(locales, ws[0]) then Some(ws[0])
    else FirstWeighted(locales, ws[1..])
  }

  lemma {:induction false} FirstOfTags(locales: seq<string>, ws: seq<Weighted>)
    ensures FirstSupported(locales, Tags(ws)) ==
            match FirstWeighted(locales, ws) case None => None case Some(w) => Normalize(locales, Some(w.tag))
  {
    if ws != [] {
      assert Tags(ws)[1..] == Tags(ws[1..]);
      FirstOfTags(locales, ws[1..]);
    }
  }

  lemma {:induction false} FirstAfterInsert(locales: seq<string>, sorted: seq<Weighted>, w: Weighted)
    requires Descending(sorted)
    ensures FirstWeighted(locales, Insert(sorted, w)) ==
            if !Supported(locales, w) then FirstWeighted(locales, sorted)
            else match FirstWeighted(locales, sorted)
                 case None => Some(w)
                 case Some(v) => if v.quality < w.quality then Some(w) else Some(v)
  {
    if sorted == [] || sorted[0].quality < w.quality {
      assert ([w] + sorted)[1..] == sorted;
      FirstWeighs(locales, sorted);
    } else {
      var rest := Insert(sorted[1..], w);
      assert ([sorted[0]] + rest)[1..] == rest;
      FirstAfterInsert(locales, sorted[1..], w);
    }
  }

  lemma {:induction false} FirstWeighs(locales: seq<string>, ws: seq<Weighted>)
    ensures FirstWeighted(locales, ws).Some? ==> FirstWeighted(locales, ws).value in ws
  {
    if ws != [] {
      FirstWeighs(locales, ws[1..]);
    }
  }

  ghost predicate Chosen(locales: seq<string>, ws: seq<Weighted>, first: Option<Weighted>, best: int) {
    match first
    case None => forall i :: 0 <= i < |ws| ==> !Supported(locales, ws[i])
    case Some(w) => IsBest(locales, ws, best) && ws[best] == w
  }

  /** One more entry takes the place of the best one only by outweighing it. */
  lemma ChooseAgain(locales: seq<string>, ws: seq<Weighted>, w: Weighted, first: Option<Weighted>, best: int)
    requires Chosen(locales, ws, first, best)
    ensures if !Supported(locales, w) then Chosen(locales, ws + [w], first, best)
            else if first.None? || first.value.quality < w.quality then Chosen(locales, ws + [w], Some(w), |ws|)
            else Chosen(locales, ws + [w], first, best)
  {
    hide Supported;
  }

  lemma {:induction false} BestComesFirst(locales: seq<string>, ws: seq<Weighted>) returns (best: int)
    ensures Chosen(locales, ws, FirstWeighted(locales, StableSort(ws)), best)
  {
    best := 0;
    if ws != [] {
      var before, w := ws[..|ws| - 1], ws[|ws| - 1];
      hide Insert, FirstWeighted, Supported, Chosen;
      best := BestComesFirst(locales, before);
      var first := FirstWeighted(locales, StableSort(before));
      SortDescends(before);
      FirstAfterInsert(locales, StableSort(before), w);
      ChooseAgain(locales, before, w, first, best);
      assert ws == before + [w];
      if Supported(locales, w) && (first.None? || first.value.quality < w.quality) {
        best := |before|;
      }
    }
  }

  lemma BestIsUnique(locales: seq<string>, ws: seq<Weighted>, i: int, j: int)
    requires IsBest(locales, ws, i) && IsBest(locales, ws, j)
    ensures i == j
  {
  }

  function FromHeader(locales: seq<string>, header: Option<string>): Option<string> {
    if header.GetOr([]) == [] then None
    else FirstSupported(locales, Tags(StableSort(Admitted(Split(header.value, ',')))))
  }

  /**
   The locale taken from Accept-Language is that of the supported tag of the highest quality,
   the earliest in the header among equals; none when no admitted tag is supported.
   */
  lemma HeaderChoosesBest(locales: seq<string>, header: string) returns (best: int)
    requires header != []
    ensures var ws := Admitted(Split(header, ','));
            match FromHeader(locales, Some(header))
            case None => forall i :: 0 <= i < |ws| ==> !Supported(locales, ws[i])
            case Some(locale) => IsBest(locales, ws, best) && Normalize(locales, Some(ws[best].tag)) == Some(locale)
  {
    var ws := Admitted(Split(header, ','));
    best := BestComesFirst(locales, ws);
    FirstOfTags(locales, StableSort(ws));
    FirstWeighs(locales, StableSort(ws));
  }

  /** The first candidate that names a supported locale. */
  function FirstNormalized(locales: seq<string>, candidates: seq<Option<string>>): Option<string> {
    if candidates == [] then None
    else if Normalize(locales, candidates[0]).Some? then Normalize(locales, candidates[0])
    else FirstNormalized(locales, candidates[1..])
  }

  function OrElse(a: Option<string>, b: Option<string>): Option<string> {
    if a.Some? then a else b
  }

  method FirstCandidate(locales: seq<string>, candidates: seq<Option<string>>) returns (locale: Option<string>)
    ensures locale == FirstNormalized(locales, candidates)
  {
    for i := 0 to |candidates|
      invariant FirstNormalized(locales, candidates) == FirstNormalized(locales, candidates[i..])
    {
      assert candidates[i..][1..] == candidates[i + 1..];
      if Normalize(locales, candidates[i]).Some? {
        return Normalize(locales, candidates[i]);
      }
    }
    return None;
  }

  lemma {:induction false} FirstIsAvailable(locales: seq<string>, candidates: seq<Option<string>>, tags: seq<string>)
    ensures FirstNormalized(locales, candidates).Some? ==> FirstNormalized(locales, candidates).value in locales
    ensures FirstSupported(locales, tags).Some? ==> FirstSupported(locales, tags).value in locales
    decreases |candidates| + |tags|
  {
    if candidates != [] {
      FirstIsAvailable(locales, candidates[1..], tags);
    } else if tags != [] {
      FirstIsAvailable(locales, candidates, tags[1..]);
    }
  }

  /** The account's language, then its tenant's, then the browser's, then the deployment's default. */
  method ResolveLocale(s: Settings, userLanguage: Option<string>, tenantDefault: Option<string>,
                       acceptLanguage: Option<string>)
    returns (locale: string)
    requires WellConfigured(s)
    ensures locale in AvailableLocales(s)
    ensures var locales := AvailableLocales(s);
            locale == OrElse(FirstNormalized(locales, [userLanguage, tenantDefault]),
                             FromHeader(locales, acceptLanguage)).GetOr(s.default)
  {
    hide Normalize, AvailableLocales;
    var locales := AvailableLocales(s);
    var candidate := FirstCandidate(locales, [userLanguage, tenantDefault]);
    FirstIsAvailable(locales, [userLanguage, tenantDefault], []);
    if candidate.Some? {
      return candidate.value;
    }
    var tags := ParseAcceptLanguage(acceptLanguage);
    FirstIsAvailable(locales, [], tags);
    for i := 0 to |tags|
      invariant FirstSupported(locales, tags) == FirstSupported(locales, tags[i..])
    {
      assert tags[i..][1..] == tags[i + 1..];
      if Normalize(locales, Some(tags[i])).Some? {
        return Normalize(locales, Some(tags[i])).value;
      }
    }
    return s.default;
  }

  /** Header, cookie and token claim outrank the browser's own preference. */
  method ResolveFromRequest(s: Settings, header: Option<string>, cookie: Option<string>, claim: Option<string>,
                            acceptLanguage: Option<string>) returns (locale: string)
    requires WellConfigured(s)
    ensures locale in AvailableLocales(s)
    ensures var locales := AvailableLocales(s);
            locale == OrElse(FirstNormalized(locales, [header, cookie, claim]),
                             FromHeader(locales, acceptLanguage)).GetOr(s.default)
  {
    hide Normalize, AvailableLocales;
    var locales := AvailableLocales(s);
    var candidate := FirstCandidate(locales, [header, cookie, claim]);
    FirstIsAvailable(locales, [header, cookie, claim], []);
    if candidate.Some? {
      return candidate.value;
    }
    locale := ResolveLocale(s, None, None, acceptLanguage);
    Unstated(locales);
  }

  lemma Unstated(locales: seq<string>)
    ensures FirstNormalized(locales, [None, None]).None?
  {
    var unstated: Option<string> := None;
    assert Normalize(locales, unstated).None?;
    assert FirstNormalized(locales, [unstated]).None? by {
      assert [unstated][1..] == [];
    }
    assert [unstated, unstated][1..] == [unstated];
  }
}
