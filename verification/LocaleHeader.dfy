/** Accept-Language headers as clients write them, and what is read back from them. */
module LocaleHeader {
  import opened Common
  import opened Text
  import opened Locale

  // ----- Writing a header

  /** The quality of a preference: not written, `n` thousandths written with some places, or something else written. */
  datatype Quality = Unwritten | Thousand(n: nat, places: nat, upper: bool) | Garbled(text: string)

  /** A language range with its parameters, those before and after the quality included. */
  datatype Preference = Preference(tag: string, before: seq<string>, quality: Quality, after: seq<string>, spaced: bool)

  /** Text that no separator and no surrounding space takes apart. */
  predicate Plain(s: string) {
    ',' !in s && ';' !in s && (s != [] ==> !IsSpace(s[0]) && !IsSpace(s[|s| - 1]))
  }

  predicate IsQuality(param: string) {
    StartsWith(Lower(Strip(param)), "q=")
  }

  predicate Acceptable(q: Quality) {
    match q
    case Unwritten => true
    case Thousand(n, places, _) => Fits(n, places)
    case Garbled(text) => Plain(text) && !MatchesQuality(Lower("q=" + text))
  }

  /** A preference that can be written: its first quality parameter is the one it names, if it names one. */
  predicate Writable(p: Preference) {
    && p.tag != [] && Plain(p.tag) && Acceptable(p.quality)
    && (forall s :: s in p.before + p.after ==> s != [] && Plain(s))
    && (forall s :: s in p.before ==> !IsQuality(s))
    && (p.quality.Unwritten? ==> p.after == [])
  }

  /** So many places suffice for `n` thousandths. */
  predicate Fits(n: nat, places: nat) {
    && n <= 1000 && places <= 3
    && (places == 0 ==> n % 1000 == 0) && (places == 1 ==> n % 100 == 0) && (places == 2 ==> n % 10 == 0)
  }

  function Decimal(n: nat, places: nat): string
    requires Fits(n, places)
  {
    match places
    case 0 => Render(n / 1000)
    case 1 => Render(n / 1000) + "." + Render(n / 100 % 10)
    case 2 => Render(n / 1000) + "." + Render(n / 100 % 10) + Render(n / 10 % 10)
    case _ => Render(n / 1000) + "." + Render(n / 100 % 10) + Render(n / 10 % 10) + Render(n % 10)
  }

  function Spaced(spaced: bool, s: string): string {
    if spaced then [' '] + s else s
  }

  function QualityParameters(p: Preference): seq<string>
    requires Acceptable(p.quality)
  {
    match p.quality
    case Unwritten => []
    case Thousand(n, places, upper) => [Spaced(p.spaced, (if upper then "Q=" else "q=") + Decimal(n, places))]
    case Garbled(text) => [Spaced(p.spaced, "q=" + text)]
  }

  function Segments(p: Preference): seq<string>
    requires Writable(p)
  {
    [p.tag] + p.before + QualityParameters(p) + p.after
  }

  function Written(p: Preference): string
    requires Writable(p)
  {
    Spaced(p.spaced, Join(Segments(p), ';'))
  }

  function Header(prefs: seq<Preference>): string
    requires prefs != [] && forall p :: p in prefs ==> Writable(p)
  {
    Join(seq(|prefs|, i requires 0 <= i < |prefs| => Written(prefs[i])), ',')
  }

  /** What a preference is worth: everything when no quality is written, nothing when it is garbled. */
  function Worth(p: Preference): nat {
    match p.quality
    case Unwritten => 1000
    case Thousand(n, _, _) => n
    case Garbled(_) => 0
  }

  predicate Wanted(p: Preference) {
    p.tag != "*" && Worth(p) > 0
  }

  /** The preferences that stand, in the order written. */
  function Standing(prefs: seq<Preference>): seq<Weighted> {
    if prefs == [] then []
    else
      var p := prefs[|prefs| - 1];
      Standing(prefs[..|prefs| - 1]) + if Wanted(p) then [Weighted(Worth(p), p.tag)] else []
  }

  // ----- Reading it back

  lemma LowerPlain(s: string)
    requires forall c :: c in s ==> LowerChar(c) == c
    ensures Lower(s) == s
  {
  }

  lemma DecimalIsRead(n: nat, places: nat, upper: bool)
    requires Fits(n, places)
    ensures var s := (if upper then "Q=" else "q=") + Decimal(n, places);
            Lower(s) == "q=" + Decimal(n, places) && s != [] && Plain(s)
  {
    var s := (if upper then "Q=" else "q=") + Decimal(n, places);
    assert |s| >= 3 && forall i :: 2 <= i < |s| ==> '.' <= s[i] <= '9' && s[i] != ';';
    assert forall i :: 2 <= i < |s| ==> LowerChar(s[i]) == s[i];
    hide Decimal;
    assert Lower(s) == "q=" + Decimal(n, places);
  }

  lemma DecimalIsQuality(n: nat, places: nat)
    requires Fits(n, places)
    ensures var s := "q=" + Decimal(n, places); MatchesQuality(s) && Thousandths(s) == n
  {
    var s := "q=" + Decimal(n, places);
    assert |s| == if places == 0 then 3 else 4 + places;
    Decimals(n);
    assert MatchesQuality(s) by {
      hide Thousandths;
    }
    hide MatchesQuality;
    assert Digit(s, 2) == n / 1000 && Digit(s, 4) == n / 100 % 10;
    assert Digit(s, 5) == n / 10 % 10 && Digit(s, 6) == n % 10;
    hide Digit, Render, Decimal;
  }

  lemma SpacedStrips(spaced: bool, s: string)
    ensures Strip(Spaced(spaced, s)) == Strip(s)
  {
    StripLeadingSpace(s);
  }

  /** The quality parameter of a preference decides, wherever it stands among the others. */
  lemma {:induction false} FirstQualityDecides(before: seq<string>, rest: seq<string>)
    requires forall s :: s in before ==> !IsQuality(s)
    ensures QualityOf(before + rest) == QualityOf(rest)
  {
    if before == [] {
      assert before + rest == rest;
    } else {
      assert (before + rest)[1..] == before[1..] + rest && (before + rest)[0] == before[0];
      assert !IsQuality(before[0]);
      hide MatchesQuality, Thousandths, Strip, Lower;
      FirstQualityDecides(before[1..], rest);
    }
  }

  /** A parameter that reads as a quality is the one that decides. */
  lemma QualityReads(param: string, more: seq<string>)
    requires IsQuality(param)
    ensures var s := Lower(Strip(param));
            QualityOf([param] + more) == if MatchesQuality(s) then Thousandths(s) else 0
  {
    assert ([param] + more)[0] == param;
    hide MatchesQuality, Thousandths, Strip, Lower;
  }

  lemma ThousandIsRead(n: nat, places: nat, upper: bool, spaced: bool, more: seq<string>)
    requires Fits(n, places)
    ensures QualityOf([Spaced(spaced, (if upper then "Q=" else "q=") + Decimal(n, places))] + more) == n
  {
    var s := (if upper then "Q=" else "q=") + Decimal(n, places);
    DecimalIsRead(n, places, upper);
    SpacedStrips(spaced, s);
    StripClean(s);
    assert Lower(Strip(Spaced(spaced, s))) == "q=" + Decimal(n, places);
    DecimalIsQuality(n, places);
    hide MatchesQuality, Thousandths, Decimal, Render, Strip, Lower, QualityOf, Spaced, Plain;
    QualityReads(Spaced(spaced, s), more);
  }

  lemma GarbledIsRead(text: string, spaced: bool, more: seq<string>)
    requires Acceptable(Garbled(text))
    ensures QualityOf([Spaced(spaced, "q=" + text)] + more) == 0
  {
    var s := "q=" + text;
    SpacedStrips(spaced, s);
    assert s[|s| - 1] == if text == [] then '=' else text[|text| - 1];
    StripClean(s);
    assert Lower(s)[..2] == "q=";
    hide MatchesQuality, Thousandths, Strip, QualityOf, Spaced;
    QualityReads(Spaced(spaced, s), more);
  }

  lemma QualityIsRead(p: Preference)
    requires Writable(p)
    ensures QualityOf(QualityParameters(p) + p.after) == Worth(p)
  {
    match p.quality
    case Unwritten =>
      assert QualityParameters(p) + p.after == [];
    case Thousand(n, places, upper) =>
      ThousandIsRead(n, places, upper, p.spaced, p.after);
      hide QualityOf, Decimal, Spaced;
    case Garbled(text) =>
      GarbledIsRead(text, p.spaced, p.after);
      hide QualityOf, Spaced;
  }

  /** No separator in the text, and no space at its end. */
  predicate Holds(s: string) {
    s != [] && ';' !in s && ',' !in s && !IsSpace(s[|s| - 1])
  }

  lemma SpacedHolds(spaced: bool, s: string)
    requires Holds(s)
    ensures Holds(Spaced(spaced, s))
  {
  }

  lemma GarbledHolds(text: string)
    requires Plain(text)
    ensures Holds("q=" + text)
  {
    var s := "q=" + text;
    assert s[|s| - 1] == if text == [] then '=' else text[|text| - 1];
  }

  lemma QualityHolds(p: Preference)
    requires Acceptable(p.quality)
    ensures forall s :: s in QualityParameters(p) ==> Holds(s)
  {
    match p.quality
    case Unwritten =>
    case Thousand(n, places, upper) =>
      DecimalIsRead(n, places, upper);
      hide Decimal, Spaced;
      SpacedHolds(p.spaced, (if upper then "Q=" else "q=") + Decimal(n, places));
      hide Holds;
    case Garbled(text) =>
      GarbledHolds(text);
      hide Holds, Spaced;
      SpacedHolds(p.spaced, "q=" + text);
  }

  /** No separator gets into what is written, and no space to its end. */
  lemma SegmentsHold(p: Preference)
    requires Writable(p)
    ensures forall s :: s in Segments(p) ==> Holds(s)
  {
    QualityHolds(p);
    hide QualityParameters, IsQuality, Acceptable;
    forall s | s in Segments(p) ensures Holds(s) {
      if s != p.tag && s !in QualityParameters(p) {
        assert s in p.before + p.after;
      }
    }
  }

  lemma {:induction false} JoinedHolds(parts: seq<string>, sep: char, c: char)
    requires parts != [] && c != sep && forall p :: p in parts ==> c !in p
    ensures c !in Join(parts, sep)
  {
    if |parts| > 1 {
      JoinedHolds(parts[1..], sep, c);
    }
  }

  lemma {:induction false} JoinedStops(parts: seq<string>, sep: char)
    requires parts != [] && parts[|parts| - 1] != []
    ensures var s, last := Join(parts, sep), parts[|parts| - 1]; s != [] && s[|s| - 1] == last[|last| - 1]
  {
    if |parts| > 1 {
      JoinedStops(parts[1..], sep);
    }
  }

  /** A written preference holds no comma, and stripping it leaves its segments joined. */
  lemma WrittenIsPlain(p: Preference)
    requires Writable(p)
    ensures ',' !in Written(p) && Strip(Written(p)) == Join(Segments(p), ';')
  {
    var parts := Segments(p);
    var s := Join(parts, ';');
    SegmentsHold(p);
    assert parts[0] == p.tag && parts[|parts| - 1] in parts;
    JoinedHolds(parts, ';', ',');
    JoinedStops(parts, ';');
    assert s[0] == p.tag[0];
    hide Segments, Strip, Join, StripLeft, StripRight;
    SpacedStrips(p.spaced, s);
    StripClean(s);
  }

  /** One preference, written and read back. */
  lemma PreferenceIsRead(p: Preference)
    requires Writable(p)
    ensures ReadPart(Written(p)) == if Wanted(p) then Some(Weighted(Worth(p), p.tag)) else None
  {
    var parts := Segments(p);
    assert parts[0] == p.tag && parts[1..] == p.before + (QualityParameters(p) + p.after);
    StripClean(p.tag);
    WrittenIsSplit(p);
    WorthIsRead(p);
    hide Written, Segments, Strip, Join, Split, QualityOf, QualityParameters, Acceptable, IsQuality, Writable;
  }

  lemma WrittenIsSplit(p: Preference)
    requires Writable(p)
    ensures Split(Strip(Written(p)), ';') == Segments(p)
  {
    WrittenIsPlain(p);
    SegmentsHold(p);
    hide Written, Segments, Strip, Join, Split, Writable;
    SplitJoin(Segments(p), ';');
  }

  lemma WorthIsRead(p: Preference)
    requires Writable(p)
    ensures QualityOf(p.before + (QualityParameters(p) + p.after)) == Worth(p)
  {
    FirstQualityDecides(p.before, QualityParameters(p) + p.after);
    hide QualityParameters, QualityOf, Acceptable, IsQuality;
    QualityIsRead(p);
  }

  /**
   Every header is read back as its preferences in the order written: those whose quality is zero or
   garbled and the wildcard are gone, and a preference without a quality has all of it.
   */
  lemma HeaderIsReadBack(prefs: seq<Preference>)
    requires prefs != [] && forall p :: p in prefs ==> Writable(p)
    ensures Admitted(Split(Header(prefs), ',')) == Standing(prefs)
  {
    var parts := seq(|prefs|, i requires 0 <= i < |prefs| => Written(prefs[i]));
    forall i | 0 <= i < |parts| ensures ',' !in parts[i] {
      WrittenIsPlain(prefs[i]);
    }
    SplitJoin(parts, ',');
    PartsAreRead(prefs, parts);
  }

  lemma {:induction false} PartsAreRead(prefs: seq<Preference>, parts: seq<string>)
    requires |parts| == |prefs|
    requires forall i :: 0 <= i < |prefs| ==> Writable(prefs[i]) && parts[i] == Written(prefs[i])
    ensures Admitted(parts) == Standing(prefs)
  {
    hide Writable, Written, ReadPart, Wanted;
    if prefs != [] {
      var n := |prefs| - 1;
      PartsAreRead(prefs[..n], parts[..n]);
      PreferenceIsRead(prefs[n]);
    }
  }

  lemma WrittenIsText(p: Preference)
    requires Writable(p)
    ensures Written(p) != []
  {
    SegmentsHold(p);
    assert Segments(p)[0] == p.tag && Segments(p)[|Segments(p)| - 1] in Segments(p);
    hide Segments, Join, Writable;
    JoinedStops(Segments(p), ';');
  }

  lemma HeaderIsWritten(prefs: seq<Preference>)
    requires prefs != [] && forall p :: p in prefs ==> Writable(p)
    ensures Header(prefs) != []
  {
    var parts := seq(|prefs|, i requires 0 <= i < |prefs| => Written(prefs[i]));
    WrittenIsText(prefs[|prefs| - 1]);
    hide Written, Join, Writable;
    JoinedStops(parts, ',');
  }

  /**
   Of a header as written, the standing preference of a supported tag that is worth most decides, the
   first one written among equals, and its locale is the answer; there is no answer when none stands.
   */
  lemma WrittenHeaderChooses(locales: seq<string>, prefs: seq<Preference>) returns (best: int)
    requires prefs != [] && forall p :: p in prefs ==> Writable(p)
    ensures var ws := Standing(prefs);
            match FromHeader(locales, Some(Header(prefs)))
            case None => forall i :: 0 <= i < |ws| ==> !Supported(locales, ws[i])
            case Some(l) => IsBest(locales, ws, best) && Normalize(locales, Some(ws[best].tag)) == Some(l)
  {
    hide *;
    HeaderIsReadBack(prefs);
    HeaderIsWritten(prefs);
    best := HeaderChoosesBest(locales, Header(prefs));
  }

  // ----- The deployment's list

  predicate IsCode(c: string) {
    |c| == 2 && 'a' <= c[0] <= 'z' && 'a' <= c[1] <= 'z'
  }

  /** A list as an operator may write it: a space after each comma, and one comma too many. */
  function Listed(codes: seq<string>): seq<string> {
    seq(|codes|, i requires 0 <= i < |codes| => Spaced(i > 0, codes[i])) + [""]
  }

  lemma ListedParts(codes: seq<string>)
    requires forall c :: c in codes ==> IsCode(c)
    ensures |Listed(codes)| == |codes| + 1
    ensures forall i :: 0 <= i <= |codes| ==>
              ',' !in Listed(codes)[i] && EntryOf(Listed(codes)[i]) == if i < |codes| then [codes[i]] else []
  {
    hide Strip, Lower, IsCode;
    forall i | 0 <= i < |codes| ensures ',' !in Listed(codes)[i] && EntryOf(Listed(codes)[i]) == [codes[i]] {
      assert codes[i] in codes;
      CodeIsEntry(codes[i], i > 0);
      hide EntryOf, Spaced;
    }
    assert EntryOf("") == [] by {
      StripClean("");
    }
  }

  /** A written list of codes is read back as it is, and with one of them as the default it is well configured. */
  lemma ListIsReadBack(codes: seq<string>, default: string)
    requires default in codes && forall c :: c in codes ==> IsCode(c)
    ensures var s := Settings(Join(Listed(codes), ','), default); AvailableLocales(s) == codes && WellConfigured(s)
  {
    assert forall c :: c in codes ==> TwoLetters(c);
    hide Split, Join, Entries, EntryOf, Listed, TwoLetters, IsCode;
    ListedParts(codes);
    SplitJoin(Listed(codes), ',');
    EntriesOfCodes(Listed(codes), codes);
  }

  lemma CodeIsEntry(c: string, spaced: bool)
    requires IsCode(c)
    ensures ',' !in Spaced(spaced, c) && EntryOf(Spaced(spaced, c)) == [c]
  {
    SpacedStrips(spaced, c);
    StripClean(c);
    LowerPlain(c);
    hide Strip, Lower;
  }

  lemma {:induction false} EntriesOfCodes(parts: seq<string>, codes: seq<string>)
    requires |parts| == |codes| + 1
    requires forall i :: 0 <= i < |parts| ==> EntryOf(parts[i]) == if i < |codes| then [codes[i]] else []
    ensures Entries(parts) == codes
  {
    hide EntryOf;
    if codes == [] {
      assert parts[1..] == [];
    } else {
      EntriesOfCodes(parts[1..], codes[1..]);
      assert codes == [codes[0]] + codes[1..];
    }
  }

  /** Only lists of such codes are. */
  lemma ConfiguredCodes(s: Settings)
    requires WellConfigured(s)
    ensures forall c :: c in AvailableLocales(s) ==> IsCode(c)
  {
    forall c | c in AvailableLocales(s) ensures IsCode(c) {
      assert TwoLetters(c) && c[0] in c && c[1] in c;
    }
  }
}
