/** Choosing an audio section of an SDP offer and answering the offer, from `src/media/sdp.rs`, at
    the level of lines and white-space separated tokens. */
module Sdp {
  import opened Words

  /** A token is a decimal number or a word; the empty word stands for a missing token. */
  datatype Token = Num(n: nat) | Word(text: string)

  const MISSING := Word("")
  const AUDIO := Word("audio")

  /** A parsed SDES crypto attribute. */
  datatype Sdes = Sdes(tag: u32, key: string, lifetime: Option<u64>)

  datatype Line = Media(tokens: seq<Token>) | Crypto(parsed: Option<Sdes>) | Other

  datatype Section = Section(media: Token, protocol: Token, formats: seq<Token>,
                             active: bool, cryptoPresent: bool, cryptoSupported: bool)

  function TokenAt(tokens: seq<Token>, i: nat): Token {
    if i < |tokens| then tokens[i] else MISSING
  }

  /** A 16-bit port other than zero. */
  predicate IsActive(port: Token) {
    port.Num? && 0 < port.n < TWO16
  }

  function SectionOf(tokens: seq<Token>): Section {
    Section(TokenAt(tokens, 0), TokenAt(tokens, 2), if |tokens| > 3 then tokens[3..] else [],
            IsActive(TokenAt(tokens, 1)), false, false)
  }

  // ---- first pass: the sections and the choice ----

  /** `usable` says which keys the SRTP context accepts. */
  function AddLine(usable: Sdes -> bool, sections: seq<Section>, line: Line): seq<Section> {
    match line
    case Media(tokens) => sections + [SectionOf(tokens)]
    case Crypto(parsed) =>
      if sections == [] then sections
      else
        var last := sections[|sections| - 1];
        var supported := if parsed.Some? then usable(parsed.value) else last.cryptoSupported;
        sections[|sections| - 1 := last.(cryptoPresent := true, cryptoSupported := supported)]
    case Other => sections
  }

  function Sections(usable: Sdes -> bool, lines: seq<Line>): seq<Section> {
    if lines == [] then []
    else AddLine(usable, Sections(usable, lines[..|lines| - 1]), lines[|lines| - 1])
  }

  predicate IsSecureProfile(protocol: Token) {
    protocol == Word("RTP/SAVP") || protocol == Word("RTP/SAVPF")
  }

  predicate IsPlainProfile(protocol: Token) {
    protocol == Word("RTP/AVP") || protocol == Word("RTP/AVPF")
  }

  predicate IsActiveAudio(s: Section) {
    s.media == AUDIO && s.active
  }

  function Preference(s: Section): (r: Option<nat>)
    ensures r.Some? <==> IsActiveAudio(s)
  {
    if !IsActiveAudio(s) then None
    else if IsSecureProfile(s.protocol) then Some(if s.cryptoSupported then 4 else 2)
    else if IsPlainProfile(s.protocol) then Some(if s.cryptoSupported then 3 else if s.cryptoPresent then 2 else 1)
    else Some(0)
  }

  /** The best section has the highest preference, and is the first with it. */
  ghost predicate IsFirstBest(sections: seq<Section>, i: nat) {
    && i < |sections| && Preference(sections[i]).Some?
    && (forall j | 0 <= j < |sections| && Preference(sections[j]).Some? ::
          if j < i then Preference(sections[j]).value < Preference(sections[i]).value
          else Preference(sections[j]).value <= Preference(sections[i]).value)
  }

  ghost predicate IsChoice(sections: seq<Section>, choice: Option<nat>) {
    if choice.Some? then IsFirstBest(sections, choice.value)
    else forall j | 0 <= j < |sections| :: Preference(sections[j]).None?
  }

  lemma {:induction false} ChoiceIsUnique(sections: seq<Section>, a: Option<nat>, b: Option<nat>)
    requires IsChoice(sections, a) && IsChoice(sections, b)
    ensures a == b
  {
    hide Preference;
    assert a.Some? ==> Preference(sections[a.value]).Some?;
    assert b.Some? ==> Preference(sections[b.value]).Some?;
  }

  function CountAudio(sections: seq<Section>): nat {
    if sections == [] then 0
    else CountAudio(sections[..|sections| - 1]) + if IsActiveAudio(sections[|sections| - 1]) then 1 else 0
  }

  /** A later section replaces the choice only if it is strictly better. */
  lemma {:induction false} ChoiceStep(sections: seq<Section>, i: nat, choice: Option<nat>)
    requires i < |sections| && IsChoice(sections[..i], choice)
    ensures var p := Preference(sections[i]);
            var better := p.Some? && (choice.None? || p.value > Preference(sections[choice.value]).value);
            IsChoice(sections[..i + 1], if better then Some(i) else choice)
  {
    hide Preference;
    var s, t := sections[..i], sections[..i + 1];
    assert forall j | 0 <= j < i :: t[j] == s[j] == sections[j];
  }

  method Choose(sections: seq<Section>) returns (selected: Option<nat>, count: nat)
    ensures IsChoice(sections, selected) && count == CountAudio(sections)
  {
    hide Preference, IsFirstBest;
    selected, count := None, 0;
    var best: Option<nat> := None;
    for i := 0 to |sections|
      invariant IsChoice(sections[..i], selected)
      invariant selected.Some? ==> selected.value < i && best == Preference(sections[selected.value])
      invariant selected.None? <==> best == None
      invariant count == CountAudio(sections[..i])
    {
      ChoiceStep(sections, i, selected);
      assert sections[..i + 1][..i] == sections[..i];
      var preference := Preference(sections[i]);
      if preference.Some? {
        count := count + 1;
        if best.None? || preference.value > best.value {
          selected, best := Some(i), preference;
        }
      }
    }
    assert sections[..|sections|] == sections;
  }

  // ---- second pass: the chosen section's profile and crypto ----

  datatype Scan = Scan(current: Option<nat>, inside: Option<bool>, protocol: Option<Token>, present: bool, crypto: Option<Sdes>)

  function ScanLine(s: Scan, selected: Option<nat>, line: Line): Scan {
    match line
    case Media(tokens) =>
      var at := Some(if s.current.None? then 0 else s.current.value + 1);
      if TokenAt(tokens, 0) != AUDIO || !IsActive(TokenAt(tokens, 1)) || at != selected
      then s.(current := at, inside := Some(false))
      else s.(current := at, inside := Some(true), protocol := if |tokens| >= 3 then Some(tokens[2]) else s.protocol)
    case Crypto(parsed) =>
      if s.inside == Some(false) then s
      else s.(present := true, crypto := if parsed.Some? then parsed else s.crypto)
    case Other => s
  }

  function ScanAll(lines: seq<Line>, selected: Option<nat>): Scan {
    if lines == [] then Scan(None, None, None, false, None)
    else ScanLine(ScanAll(lines[..|lines| - 1], selected), selected, lines[|lines| - 1])
  }

  datatype Parsed = Parsed(sections: seq<Section>, audioSections: nat, selected: Option<nat>,
                           protocol: Option<Token>, cryptoPresent: bool, crypto: Option<Sdes>)

  /** What parsing must give: the sections, the first best of them, and its own attributes. */
  ghost predicate IsParse(usable: Sdes -> bool, lines: seq<Line>, p: Parsed) {
    && p.sections == Sections(usable, lines)
    && IsChoice(p.sections, p.selected) && p.audioSections == CountAudio(p.sections)
    && var s := ScanAll(lines, p.selected);
       p.protocol == s.protocol && p.cryptoPresent == s.present && p.crypto == s.crypto
  }

  method ParseSdp(usable: Sdes -> bool, lines: seq<Line>) returns (p: Parsed)
    ensures IsParse(usable, lines, p)
  {
    var sections := [];
    for i := 0 to |lines|
      invariant sections == Sections(usable, lines[..i])
    {
      assert lines[..i + 1][..i] == lines[..i];
      sections := AddLine(usable, sections, lines[i]);
    }
    var selected, count := Choose(sections);
    var s := Scan(None, None, None, false, None);
    for i := 0 to |lines|
      invariant s == ScanAll(lines[..i], selected)
    {
      assert lines[..i + 1][..i] == lines[..i];
      s := ScanLine(s, selected, lines[i]);
    }
    assert lines[..|lines|] == lines;
    p := Parsed(sections, count, selected, s.protocol, s.present, s.crypto);
  }

  /** The second pass has read the section that the first one chose, and no other. */
  ghost predicate Agree(sections: seq<Section>, s: Scan, selected: nat) {
    && s.current == (if sections == [] then None else Some(|sections| - 1))
    && s.inside == (if sections == [] then None
                    else Some(|sections| - 1 == selected && IsActiveAudio(sections[selected])))
    && (selected < |sections| && IsActiveAudio(sections[selected]) ==>
          && (sections[selected].cryptoPresent ==> s.present)
          && (sections[selected].protocol != MISSING ==> s.protocol == Some(sections[selected].protocol)))
  }

  lemma {:induction false} AgreeStep(usable: Sdes -> bool, sections: seq<Section>, s: Scan, selected: nat, line: Line)
    requires Agree(sections, s, selected)
    ensures Agree(AddLine(usable, sections, line), ScanLine(s, Some(selected), line), selected)
  {
  }

  lemma {:induction false} PassesAgree(usable: Sdes -> bool, lines: seq<Line>, selected: nat)
    ensures Agree(Sections(usable, lines), ScanAll(lines, Some(selected)), selected)
  {
    hide AddLine, ScanLine;
    if lines != [] {
      var n := |lines| - 1;
      PassesAgree(usable, lines[..n], selected);
      AgreeStep(usable, Sections(usable, lines[..n]), ScanAll(lines[..n], Some(selected)), selected, lines[n]);
    }
  }

  /** How many media lines there are: the section that a further line belongs to is the last of them. */
  function Opened(lines: seq<Line>): nat {
    if lines == [] then 0 else Opened(lines[..|lines| - 1]) + if lines[|lines| - 1].Media? then 1 else 0
  }

  /** The crypto attributes that apply to section `selected`: its own, and those before any section. */
  function CryptoLines(lines: seq<Line>, selected: nat): seq<Option<Sdes>> {
    if lines == [] then []
    else
      var before, last := lines[..|lines| - 1], lines[|lines| - 1];
      CryptoLines(before, selected)
      + if last.Crypto? && (Opened(before) == 0 || Opened(before) - 1 == selected) then [last.parsed] else []
  }

  /** The last that could be parsed. */
  function LastParsed(found: seq<Option<Sdes>>): Option<Sdes> {
    if found == [] then None
    else if found[|found| - 1].Some? then found[|found| - 1]
    else LastParsed(found[..|found| - 1])
  }

  lemma {:induction false} OpenedSections(usable: Sdes -> bool, lines: seq<Line>)
    ensures |Sections(usable, lines)| == Opened(lines)
  {
    if lines != [] { OpenedSections(usable, lines[..|lines| - 1]); }
  }

  /** A section stays what its media line made it. */
  lemma {:induction false} SectionStays(usable: Sdes -> bool, sections: seq<Section>, line: Line, i: nat)
    requires i < |sections|
    ensures i < |AddLine(usable, sections, line)|
    ensures IsActiveAudio(AddLine(usable, sections, line)[i]) == IsActiveAudio(sections[i])
  {
  }

  lemma {:induction false} LastParsedSnoc(found: seq<Option<Sdes>>, next: Option<Sdes>)
    ensures LastParsed(found + [next]) == if next.Some? then next else LastParsed(found)
  {
    assert (found + [next])[..|found|] == found;
  }

  /** The second pass ends with the crypto of the selected section: present if and only if an attribute
      applies to it, and then the last one that could be parsed. */
  lemma {:induction false} ScanReadsSelected(usable: Sdes -> bool, lines: seq<Line>, selected: nat)
    requires selected < |Sections(usable, lines)| ==> IsActiveAudio(Sections(usable, lines)[selected])
    ensures var s, found := ScanAll(lines, Some(selected)), CryptoLines(lines, selected);
            (s.present <==> found != []) && s.crypto == LastParsed(found)
  {
    hide AddLine, IsActiveAudio, LastParsed;
    if lines == [] {
      LastParsedNone();
    } else {
      var n := |lines| - 1;
      var before := lines[..n];
      if selected < |Sections(usable, before)| { SectionStays(usable, Sections(usable, before), lines[n], selected); }
      ScanReadsSelected(usable, before, selected);
      PassesAgree(usable, before, selected);
      OpenedSections(usable, before);
      assert CryptoLines(before, selected) + [] == CryptoLines(before, selected);
      if lines[n].Crypto? { LastParsedSnoc(CryptoLines(before, selected), lines[n].parsed); }
    }
  }

  lemma {:induction false} LastParsedNone()
    ensures LastParsed([]) == None
  {
  }

  // ---- validation ----

  predicate IsComplete(s: Section) {
    s.media != MISSING && s.protocol != MISSING && s.formats != []
  }

  /** The checks on a remote offer; `transportOk` are those of its addresses. */
  predicate IsValidOffer(usable: Sdes -> bool, p: Parsed, transportOk: bool) {
    && p.audioSections > 0 && p.selected.Some?
    && (forall s <- p.sections :: IsComplete(s))
    && p.protocol.Some? && (IsPlainProfile(p.protocol.value) || IsSecureProfile(p.protocol.value))
    && (IsSecureProfile(p.protocol.value) || p.cryptoPresent ==> p.crypto.Some?)
    && (p.crypto.Some? ==> usable(p.crypto.value))
    && transportOk
  }

  /** The section asks for SRTP in a way this endpoint knows of. */
  predicate OffersSecurity(s: Section) {
    IsActiveAudio(s) && (IsSecureProfile(s.protocol) || (IsPlainProfile(s.protocol) && s.cryptoPresent))
  }

  lemma {:induction false} SupportedIsPresent(usable: Sdes -> bool, lines: seq<Line>, i: nat)
    requires i < |Sections(usable, lines)|
    ensures Sections(usable, lines)[i].cryptoSupported ==> Sections(usable, lines)[i].cryptoPresent
  {
    var n := |lines| - 1;
    if i < |Sections(usable, lines[..n])| { SupportedIsPresent(usable, lines[..n], i); }
  }

  /** An offer taken as plain RTP asked for SRTP in none of its sections: there is no downgrade. */
  lemma {:induction false} PlainOffersNoSecurity(usable: Sdes -> bool, lines: seq<Line>, p: Parsed, i: nat)
    requires IsParse(usable, lines, p) && IsValidOffer(usable, p, true) && p.crypto.None? && i < |p.sections|
    ensures !OffersSecurity(p.sections[i])
    ensures Preference(p.sections[p.selected.value]) == Some(1)
  {
    hide Sections, ScanAll;
    var k := p.selected.value;
    PassesAgree(usable, lines, k);
    SupportedIsPresent(usable, lines, k);
    assert p.sections[k] in p.sections;
    assert Preference(p.sections[k]) == Some(1);
  }

  /** An active audio section asks for security: by its profile, as `secure` classifies profiles, or by
      a crypto attribute. */
  ghost predicate AsksForSecurity(secure: Token -> bool, s: Section) {
    IsActiveAudio(s) && (secure(s.protocol) || s.cryptoPresent)
  }

  /** A reading of profile names that agrees with the endpoint's on the names it knows. */
  ghost predicate Classifies(secure: Token -> bool) {
    forall t :: (IsSecureProfile(t) ==> secure(t)) && (IsPlainProfile(t) ==> !secure(t))
  }

  /** The profiles of SRTP keyed over DTLS (RFC 5764). */
  predicate IsTlsProfile(protocol: Token) {
    protocol == Word("UDP/TLS/RTP/SAVP") || protocol == Word("UDP/TLS/RTP/SAVPF")
  }

  predicate IsSecureOrTls(protocol: Token) {
    IsSecureProfile(protocol) || IsTlsProfile(protocol)
  }

  /** However profiles that the endpoint does not know are read: an offer taken as plain RTP asked for
      security nowhere, if and only if no section that asks for it falls to the lowest preference. */
  lemma {:induction false} PlainIsNoDowngradeExactly(usable: Sdes -> bool, lines: seq<Line>, p: Parsed,
                        secure: Token -> bool)
    requires IsParse(usable, lines, p) && IsValidOffer(usable, p, true) && p.crypto.None? && Classifies(secure)
    ensures (forall s <- p.sections :: !AsksForSecurity(secure, s))
       <==> (forall s <- p.sections :: AsksForSecurity(secure, s) ==> Preference(s) != Some(0))
  {
    hide IsParse, IsValidOffer, IsSecureProfile, IsPlainProfile;
    forall i | 0 <= i < |p.sections| ensures !OffersSecurity(p.sections[i]) {
      PlainOffersNoSecurity(usable, lines, p, i);
    }
  }

  const PLAIN_SECTION := Section(AUDIO, Word("RTP/AVP"), [Num(0)], true, false, false)
  const TLS_SECTION := Section(AUDIO, Word("UDP/TLS/RTP/SAVPF"), [Num(0)], true, false, false)

  const TLS_LINE := Media([AUDIO, Num(5004), Word("UDP/TLS/RTP/SAVPF"), Num(0)])
  const PLAIN_LINE := Media([AUDIO, Num(5006), Word("RTP/AVP"), Num(0)])

  /** A section under DTLS before a plain one, with and without a crypto attribute. */
  function TlsThenPlain(crypto: bool): seq<Line> {
    [TLS_LINE] + (if crypto then [Crypto(None)] else []) + [PLAIN_LINE]
  }

  lemma {:induction false} TlsThenPlainSections(usable: Sdes -> bool, crypto: bool)
    ensures Sections(usable, TlsThenPlain(crypto)) == [TLS_SECTION.(cryptoPresent := crypto), PLAIN_SECTION]
  {
    var first := [] + [TLS_LINE];
    SectionsSnoc(usable, [], TLS_LINE);
    SectionsSnoc(usable, first, Crypto(None));
    SectionsSnoc(usable, first + [Crypto(None)], PLAIN_LINE);
    SectionsSnoc(usable, first, PLAIN_LINE);
    assert TlsThenPlain(crypto) == (if crypto then first + [Crypto(None)] else first) + [PLAIN_LINE];
  }

  lemma {:induction false} TlsThenPlainScan(crypto: bool)
    ensures ScanAll(TlsThenPlain(crypto), Some(1)) == Scan(Some(1), Some(true), Some(Word("RTP/AVP")), false, None)
  {
    var first := [TLS_LINE];
    var both := first + [Crypto(None)];
    assert first[..0] == [] && both[..1] == first;
    assert ScanAll(first, Some(1)) == Scan(Some(0), Some(false), None, false, None);
    assert ScanAll(both, Some(1)) == ScanAll(first, Some(1));
    var l := TlsThenPlain(crypto);
    assert l[..|l| - 1] == if crypto then both else first;
  }

  /** Both are failing inputs: the section under DTLS asks for security, and the plain one is taken. */
  lemma {:induction false} TlsIsPassedOver(usable: Sdes -> bool, crypto: bool, p: Parsed)
    requires IsParse(usable, TlsThenPlain(crypto), p)
    ensures p.sections == [TLS_SECTION.(cryptoPresent := crypto), PLAIN_SECTION] && p.selected == Some(1)
    ensures Classifies(IsSecureOrTls) && AsksForSecurity(IsSecureOrTls, p.sections[0])
    ensures p.crypto.None? && IsValidOffer(usable, p, true)
  {
    hide Sections, ScanAll;
    TlsThenPlainSections(usable, crypto);
    TlsThenPlainScan(crypto);
    assert Preference(p.sections[0]) == Some(0) && Preference(p.sections[1]) == Some(1);
    ChoiceIsUnique(p.sections, p.selected, Some(1));
    assert CountAudio(p.sections[..1]) == 1;
  }

  // ---- the answer ----

  /** What the endpoint answers with on its own section. */
  datatype Local = Local(port: u16, formats: seq<Token>, crypto: Option<Sdes>)

  /** Tokens written with blanks between them; a missing one leaves nothing behind. */
  function Written(tokens: seq<Token>): seq<Token> {
    if tokens == [] then []
    else Written(tokens[..|tokens| - 1]) + if tokens[|tokens| - 1] == MISSING then [] else [tokens[|tokens| - 1]]
  }

  function SelectedLines(protocol: Token, local: Local): seq<Line> {
    [Media(Written([AUDIO, Num(local.port), protocol] + local.formats)), Other]
    + (if local.crypto.Some? then [Crypto(local.crypto)] else [])
    + [Other]
  }

  function RejectedLines(s: Section): seq<Line> {
    [Media(Written([s.media, Num(0), s.protocol] + s.formats))]
  }

  function SectionLines(sections: seq<Section>, selected: nat, local: Local, i: nat): seq<Line>
    requires i < |sections|
  {
    if i == selected then SelectedLines(sections[i].protocol, local) else RejectedLines(sections[i])
  }

  function AnswerLines(sections: seq<Section>, selected: nat, local: Local, n: nat): seq<Line>
    requires n <= |sections|
  {
    if n == 0 then [Other]
    else AnswerLines(sections, selected, local, n - 1) + SectionLines(sections, selected, local, n - 1)
  }

  method GenerateAnswer(p: Parsed, local: Local) returns (r: Result<seq<Line>, string>)
    ensures r.Ok? <==> p.selected.Some? && p.selected.value < |p.sections| && p.sections[p.selected.value].media == AUDIO
    ensures r.Ok? ==> r.value == AnswerLines(p.sections, p.selected.value, local, |p.sections|)
  {
    if p.selected.None? {
      return Err("SDP has no selected audio section");
    }
    var selected := p.selected.value;
    if selected >= |p.sections| || p.sections[selected].media != AUDIO {
      return Err("SDP selected media section is not audio");
    }
    var lines := [Other];
    for i := 0 to |p.sections|
      invariant lines == AnswerLines(p.sections, selected, local, i)
    {
      if i == selected {
        lines := lines + SelectedLines(p.sections[i].protocol, local);
      } else {
        lines := lines + RejectedLines(p.sections[i]);
      }
    }
    r := Ok(lines);
  }

  ghost predicate NoneMissing(tokens: seq<Token>) {
    forall i | 0 <= i < |tokens| :: tokens[i] != MISSING
  }

  lemma {:induction false} WrittenWhole(tokens: seq<Token>)
    requires NoneMissing(tokens)
    ensures Written(tokens) == tokens
  {
    if tokens != [] {
      WrittenWhole(tokens[..|tokens| - 1]);
    }
  }

  /** The section that the answer's lines parse back to. */
  function Answered(usable: Sdes -> bool, s: Section, chosen: bool, local: Local): Section {
    if chosen then
      Section(AUDIO, s.protocol, local.formats, local.port > 0, local.crypto.Some?,
              local.crypto.Some? && usable(local.crypto.value))
    else Section(s.media, s.protocol, s.formats, false, false, false)
  }

  function AnsweredAll(usable: Sdes -> bool, sections: seq<Section>, selected: nat, local: Local,
                       n: nat): (a: seq<Section>)
    requires n <= |sections|
    ensures |a| == n
  {
    seq(n, i requires 0 <= i < n => Answered(usable, sections[i], i == selected, local))
  }

  lemma {:induction false} SectionsSnoc(usable: Sdes -> bool, lines: seq<Line>, line: Line)
    ensures Sections(usable, lines + [line]) == AddLine(usable, Sections(usable, lines), line)
  {
    assert (lines + [line])[..|lines|] == lines;
  }

  lemma {:induction false} MediaLineParses(media: Token, port: Token, protocol: Token, formats: seq<Token>)
    requires media != MISSING && port != MISSING && protocol != MISSING && NoneMissing(formats)
    ensures SectionOf(Written([media, port, protocol] + formats)) == Section(media, protocol, formats, IsActive(port), false, false)
  {
    var tokens := [media, port, protocol] + formats;
    WrittenWhole(tokens);
    assert tokens[3..] == formats;
  }

  lemma {:induction false} RejectedParses(usable: Sdes -> bool, lines: seq<Line>, s: Section, local: Local)
    requires IsComplete(s) && NoneMissing(s.formats)
    ensures Sections(usable, lines + RejectedLines(s)) == Sections(usable, lines) + [Answered(usable, s, false, local)]
  {
    hide Sections, Written, SectionOf;
    MediaLineParses(s.media, Num(0), s.protocol, s.formats);
    SectionsSnoc(usable, lines, RejectedLines(s)[0]);
  }

  lemma {:induction false} SelectedParses(usable: Sdes -> bool, lines: seq<Line>, s: Section, local: Local)
    requires s.protocol != MISSING && NoneMissing(local.formats)
    ensures Sections(usable, lines + SelectedLines(s.protocol, local)) == Sections(usable, lines) + [Answered(usable, s, true, local)]
  {
    hide Sections, Written, SectionOf;
    MediaLineParses(AUDIO, Num(local.port), s.protocol, local.formats);
    var media := Media(Written([AUDIO, Num(local.port), s.protocol] + local.formats));
    var a := lines + [media];
    SectionsSnoc(usable, lines, media);
    SectionsSnoc(usable, a, Other);
    SectionsSnoc(usable, a + [Other], Crypto(local.crypto));
    SectionsSnoc(usable, a + [Other] + [Crypto(local.crypto)], Other);
    SectionsSnoc(usable, a + [Other], Other);
    if local.crypto.Some? {
      assert lines + SelectedLines(s.protocol, local) == a + [Other] + [Crypto(local.crypto)] + [Other];
    } else {
      assert lines + SelectedLines(s.protocol, local) == a + [Other] + [Other];
    }
  }

  lemma {:induction false} AnswerParses(usable: Sdes -> bool, sections: seq<Section>, selected: nat, local: Local, n: nat)
    requires n <= |sections| && NoneMissing(local.formats)
    requires forall s <- sections :: IsComplete(s) && NoneMissing(s.formats)
    ensures Sections(usable, AnswerLines(sections, selected, local, n)) == AnsweredAll(usable, sections, selected, local, n)
  {
    hide Sections, SelectedLines, RejectedLines, Answered, NoneMissing;
    if n == 0 {
      SectionsSnoc(usable, [], Other);
      assert [] + [Other] == [Other];
      NoSections(usable);
    } else {
      AnswerParses(usable, sections, selected, local, n - 1);
      var lines := AnswerLines(sections, selected, local, n - 1);
      var s := sections[n - 1];
      assert s in sections;
      if n - 1 == selected { SelectedParses(usable, lines, s, local); } else { RejectedParses(usable, lines, s, local); }
    }
  }

  lemma {:induction false} NoSections(usable: Sdes -> bool)
    ensures Sections(usable, []) == []
  {
  }

  lemma {:induction false} CountOfOne(sections: seq<Section>, i: nat)
    requires i < |sections| && forall j | 0 <= j < |sections| :: IsActiveAudio(sections[j]) <==> j == i
    ensures CountAudio(sections) == 1
  {
    var n := |sections| - 1;
    if i < n { CountOfOne(sections[..n], i); } else { CountOfNone(sections[..n]); }
  }

  lemma {:induction false} CountOfNone(sections: seq<Section>)
    requires forall j | 0 <= j < |sections| :: !IsActiveAudio(sections[j])
    ensures CountAudio(sections) == 0
  {
    if sections != [] { CountOfNone(sections[..|sections| - 1]); }
  }

  /** Splitting at white space gives no empty token. */
  ghost predicate Tokenised(lines: seq<Line>) {
    forall i | 0 <= i < |lines| && lines[i].Media? :: NoneMissing(lines[i].tokens)
  }

  lemma {:induction false} FormatsTokenised(usable: Sdes -> bool, lines: seq<Line>, i: nat)
    requires Tokenised(lines) && i < |Sections(usable, lines)|
    ensures NoneMissing(Sections(usable, lines)[i].formats)
  {
    var n := |lines| - 1;
    if i < |Sections(usable, lines[..n])| { FormatsTokenised(usable, lines[..n], i); }
  }

  /** The answer to a valid offer, parsed again: every section of the offer in its place, with its
      media and protocol; only the chosen one active, and so the one chosen again. */
  lemma {:induction false} AnswerMirrorsOffer(usable: Sdes -> bool, lines: seq<Line>, p: Parsed, local: Local, q: Parsed)
    requires IsParse(usable, lines, p) && IsValidOffer(usable, p, true)
    requires Tokenised(lines)
    requires local.port > 0 && NoneMissing(local.formats)
    requires IsParse(usable, AnswerLines(p.sections, p.selected.value, local, |p.sections|), q)
    ensures |q.sections| == |p.sections| && q.selected == p.selected && q.audioSections == 1
    ensures forall i | 0 <= i < |p.sections| ::
              && q.sections[i].media == p.sections[i].media && q.sections[i].protocol == p.sections[i].protocol
              && (q.sections[i].active <==> i == p.selected.value)
              && (i != p.selected.value ==> q.sections[i].formats == p.sections[i].formats)
    ensures q.protocol == p.protocol
  {
    hide Sections, ScanAll, AnswerLines;
    var k := p.selected.value;
    forall i | 0 <= i < |p.sections| ensures NoneMissing(p.sections[i].formats) { FormatsTokenised(usable, lines, i); }
    AnswerParses(usable, p.sections, k, local, |p.sections|);
    assert p.sections[k] in p.sections;
    OnlyChoice(q.sections, k);
    ChoiceIsUnique(q.sections, q.selected, Some(k));
    CountOfOne(q.sections, k);
    PassesAgree(usable, lines, k);
    PassesAgree(usable, AnswerLines(p.sections, k, local, |p.sections|), k);
  }

  lemma {:induction false} OnlyChoice(sections: seq<Section>, i: nat)
    requires i < |sections| && forall j | 0 <= j < |sections| :: IsActiveAudio(sections[j]) <==> j == i
    ensures IsChoice(sections, Some(i))
  {
  }
}
