/**
 * The ids the inline bot hands to Telegram: result ids that carry a media format, a file id
 * and an impression id, and the callback data of the three library buttons built on them.
 * SHA-256 is a parameter; all that is used of it is the length of its hex digest.
 */
module InlineIds {
  import opened Options
  import opened HexText
  import opened Separators

  datatype MediaFormat = Photo | Animation

  /** 128-bit file ids. */
  const UUID_WIDTH := 32
  const RESULT_ID_LIMIT := 64
  const DIGEST_LENGTH := 64
  const LIBRARY_CALLBACK_PREFIX := "lib"

  predicate IsUuid(n: nat) { n < Power16(UUID_WIDTH) }

  ghost predicate IsDigest(sha256: string -> string) { forall s :: |sha256(s)| == DIGEST_LENGTH }

  function Prefix(format: MediaFormat): string { if format.Photo? then "p" else "a" }

  // ---- Building ----

  /** Too long an impression id is replaced by part of its digest. */
  function ResultImpressionId(file: nat, impression: string, sha256: string -> string): string
    requires IsUuid(file) && IsDigest(sha256)
  {
    if |"p:" + Hex(file, UUID_WIDTH) + ":" + impression| <= RESULT_ID_LIMIT then impression
    else "imp_" + sha256(impression)[..24]
  }

  function BuildResultId(format: MediaFormat, file: nat, impression: Option<string>, sha256: string -> string): string
    requires IsUuid(file) && IsDigest(sha256)
  {
    if impression.GetOr("") == "" then Prefix(format) + ":" + Hex(file, UUID_WIDTH)
    else Prefix(format) + ":" + Hex(file, UUID_WIDTH) + ":" + ResultImpressionId(file, impression.value, sha256)
  }

  function BuildCallbackData(action: string, resultId: string): string {
    LIBRARY_CALLBACK_PREFIX + ":" + action + ":" + resultId
  }

  // ---- Parsing ----

  /** The text before and after the first colon. */
  function Cut(s: string): (r: Option<(string, string)>)
    ensures r.Some? ==> ':' !in r.value.0 && s == r.value.0 + ":" + r.value.1
    ensures r.None? <==> ':' !in s
  {
    if s == "" then None
    else if s[0] == ':' then Some(("", s[1..]))
    else
      match Cut(s[1..])
      case None => None
      case Some(parts) => Some(([s[0]] + parts.0, parts.1))
  }

  /** split(":", maxsplit=2) into three parts; None is the ValueError of a short split. */
  function CutTwice(s: string): Option<(string, string, string)> {
    match Cut(s)
    case None => None
    case Some(first) =>
      match Cut(first.1)
      case None => None
      case Some(second) => Some((first.0, second.0, second.1))
  }

  predicate IsBrace(c: char) { c == '{' || c == '}' }

  function StripBraces(s: string): string
    decreases |s|
  {
    if s != "" && IsBrace(s[0]) then StripBraces(s[1..])
    else if s != "" && IsBrace(s[|s| - 1]) then StripBraces(s[..|s| - 1])
    else s
  }

  function WithoutHyphens(s: string): string {
    if s == "" then "" else (if s[0] == '-' then "" else [s[0]]) + WithoutHyphens(s[1..])
  }

  /** uuid.UUID(hex=...); None is its ValueError. */
  function ParseUuid(raw: string): Option<nat> {
    var digits := WithoutHyphens(StripBraces(raw));
    if |digits| != UUID_WIDTH then None else ParseHex(digits)
  }

  /** The second of at least two parts. */
  function ParseFileId(resultId: string): Option<nat> {
    match Cut(resultId)
    case None => None
    case Some(first) => ParseUuid(match Cut(first.1) case None => first.1 case Some(second) => second.0)
  }

  function ParseImpressionId(resultId: string): Option<string> {
    match CutTwice(resultId)
    case None => None
    case Some(parts) => if parts.2 == "" then None else Some(parts.2)
  }

  datatype Callback = Callback(action: Option<string>, file: Option<nat>, impression: Option<string>)

  function ParseCallbackData(data: Option<string>): Callback {
    if data.None? then Callback(None, None, None) else
      match CutTwice(data.value)
      case None => Callback(None, None, None)
      case Some(parts) =>
        if parts.0 != LIBRARY_CALLBACK_PREFIX then Callback(None, None, None)
        else Callback(Some(parts.1), ParseFileId(parts.2), ParseImpressionId(parts.2))
  }

  // ---- Round trips ----

  lemma CutAt(a: string, rest: string)
    requires ':' !in a
    ensures Cut(a + ":" + rest) == Some((a, rest))
  {
    var s := a + ":" + rest;
    assert s[|a|] == ':';
    var parts := Cut(s).value;
    SeparatorCancels(a, rest, parts.0, parts.1, ':');
  }

  lemma {:induction false} PlainDigitsStay(s: string)
    requires forall c | c in s :: c != '-' && !IsBrace(c)
    ensures WithoutHyphens(s) == s && StripBraces(s) == s
  {
    if s != "" {
      assert s[0] in s && s[|s| - 1] in s;
      assert forall c | c in s[1..] :: c in s;
      PlainDigitsStay(s[1..]);
    }
  }

  lemma UuidRoundTrip(file: nat)
    requires IsUuid(file)
    ensures ParseUuid(Hex(file, UUID_WIDTH)) == Some(file) && ':' !in Hex(file, UUID_WIDTH)
  {
    HexParses(file, UUID_WIDTH);
    PlainDigitsStay(Hex(file, UUID_WIDTH));
  }

  /**
   * The file id comes back, the impression id parsed from the chosen result is the one recorded
   * when it was served, and the result id never exceeds 64 characters.
   */
  lemma ResultIdRoundTrip(format: MediaFormat, file: nat, impression: Option<string>, sha256: string -> string)
    requires IsUuid(file) && IsDigest(sha256)
    ensures var id := BuildResultId(format, file, impression, sha256);
            && |id| <= RESULT_ID_LIMIT
            && ParseFileId(id) == Some(file)
            && ParseImpressionId(id) == if impression.GetOr("") == "" then None
                                        else Some(ResultImpressionId(file, impression.value, sha256))
  {
    hide BuildResultId, ParseFileId, ParseImpressionId, ResultImpressionId, Hex;
    if impression.GetOr("") == "" { BareId(format, file, impression, sha256); }
    else { FullId(format, file, impression.value, sha256); }
  }

  lemma BareId(format: MediaFormat, file: nat, impression: Option<string>, sha256: string -> string)
    requires IsUuid(file) && IsDigest(sha256) && impression.GetOr("") == ""
    ensures var id := BuildResultId(format, file, impression, sha256);
            |id| <= RESULT_ID_LIMIT && ParseFileId(id) == Some(file) && ParseImpressionId(id) == None
  {
    hide ParseUuid, Hex, ResultImpressionId;
    UuidRoundTrip(file);
    CutAt(Prefix(format), Hex(file, UUID_WIDTH));
  }

  lemma FullId(format: MediaFormat, file: nat, impression: string, sha256: string -> string)
    requires IsUuid(file) && IsDigest(sha256) && impression != ""
    ensures var id := BuildResultId(format, file, Some(impression), sha256);
            && |id| <= RESULT_ID_LIMIT && ParseFileId(id) == Some(file)
            && ParseImpressionId(id) == Some(ResultImpressionId(file, impression, sha256))
  {
    hide ParseUuid, Hex, ResultImpressionId, Cut;
    UuidRoundTrip(file);
    RecordedFits(file, impression, sha256);
    PartsComeBack(Prefix(format), Hex(file, UUID_WIDTH), ResultImpressionId(file, impression, sha256));
  }

  lemma RecordedFits(file: nat, impression: string, sha256: string -> string)
    requires IsUuid(file) && IsDigest(sha256) && impression != ""
    ensures 0 < |ResultImpressionId(file, impression, sha256)| <= RESULT_ID_LIMIT - UUID_WIDTH - 3
    ensures ResultImpressionId(file, impression, sha256) == impression <==>
              |impression| <= RESULT_ID_LIMIT - UUID_WIDTH - 3
  {
    assert |"p:" + Hex(file, UUID_WIDTH) + ":" + impression| == UUID_WIDTH + 3 + |impression|;
  }

  lemma PartsComeBack(prefix: string, hex: string, rest: string)
    requires ':' !in prefix && ':' !in hex
    ensures var id := prefix + ":" + hex + ":" + rest;
            && Cut(id) == Some((prefix, hex + ":" + rest)) && Cut(hex + ":" + rest) == Some((hex, rest))
  {
    assert prefix + ":" + hex + ":" + rest == prefix + ":" + (hex + ":" + rest);
    CutAt(prefix, hex + ":" + rest);
    CutAt(hex, rest);
  }

  /** A file id may also be written with hyphens or in braces; any other number of digits is refused. */
  lemma UuidForms(file: nat, raw: string)
    requires IsUuid(file)
    ensures var h := Hex(file, 32);
            && ParseUuid("{" + h + "}") == Some(file)
            && ParseUuid(h[..8] + "-" + h[8..]) == Some(file)
    ensures |WithoutHyphens(StripBraces(raw))| != 32 ==> ParseUuid(raw) == None
  {
    hide Hex, ParseHex, StripBraces, WithoutHyphens;
    HexParses(file, 32);
    BracesStrip(Hex(file, 32));
    HyphensStrip(Hex(file, 32));
  }

  lemma BracesStrip(h: string)
    requires h != "" && forall c | c in h :: c != '-' && !IsBrace(c)
    ensures StripBraces("{" + h + "}") == h && WithoutHyphens(h) == h
  {
    PlainDigitsStay(h);
    assert h[0] in h;
    assert ("{" + h + "}")[1..] == h + "}" && (h + "}")[..|h|] == h;
    assert StripBraces("{" + h + "}") == StripBraces(h + "}") == StripBraces(h);
  }

  lemma HyphensStrip(h: string)
    requires |h| == 32 && forall c | c in h :: c != '-' && !IsBrace(c)
    ensures var split := h[..8] + "-" + h[8..]; StripBraces(split) == split && WithoutHyphens(split) == h
  {
    var split := h[..8] + "-" + h[8..];
    PlainDigitsStay(h);
    assert split[0] in h && split[|split| - 1] in h;
    HyphenDrops(h[..8], h[8..]);
    assert h[..8] + h[8..] == h;
  }

  lemma {:induction false} HyphenDrops(a: string, b: string)
    ensures WithoutHyphens(a + "-" + b) == WithoutHyphens(a + b)
  {
    if a == "" {
      assert (a + "-" + b)[1..] == b && a + b == b;
    } else {
      assert (a + "-" + b)[1..] == a[1..] + "-" + b && (a + b)[1..] == a[1..] + b;
      HyphenDrops(a[1..], b);
    }
  }

  /** A result id with two colons but nothing behind them has no impression id. */
  lemma EmptyImpression(prefix: string, file: nat)
    requires ':' !in prefix && IsUuid(file)
    ensures ParseImpressionId(prefix + ":" + Hex(file, UUID_WIDTH) + ":") == None
    ensures ParseFileId(prefix + ":" + Hex(file, UUID_WIDTH) + ":") == Some(file)
  {
    hide Hex, ParseUuid;
    UuidRoundTrip(file);
    PartsComeBack(prefix, Hex(file, UUID_WIDTH), "");
    assert prefix + ":" + Hex(file, UUID_WIDTH) + ":" == prefix + ":" + Hex(file, UUID_WIDTH) + ":" + "";
  }

  /** Every button hands back its action, the file id and the recorded impression id, colons in it included. */
  lemma CallbackRoundTrip(
    action: string, format: MediaFormat, file: nat, impression: Option<string>, sha256: string -> string)
    requires ':' !in action && IsUuid(file) && IsDigest(sha256)
    ensures var data := BuildCallbackData(action, BuildResultId(format, file, impression, sha256));
            ParseCallbackData(Some(data)) == Callback(
              Some(action), Some(file),
              if impression.GetOr("") == "" then None else Some(ResultImpressionId(file, impression.value, sha256)))
  {
    var id := BuildResultId(format, file, impression, sha256);
    ResultIdRoundTrip(format, file, impression, sha256);
    assert BuildCallbackData(action, id) == LIBRARY_CALLBACK_PREFIX + ":" + (action + ":" + id);
    CutAt(LIBRARY_CALLBACK_PREFIX, action + ":" + id);
    CutAt(action, id);
  }

  /** Replacing an impression id is stable: building from the recorded id gives the same result id again. */
  lemma RecordedIdIsStable(format: MediaFormat, file: nat, impression: string, sha256: string -> string)
    requires IsUuid(file) && IsDigest(sha256) && impression != ""
    ensures var recorded := ResultImpressionId(file, impression, sha256);
            && ResultImpressionId(file, recorded, sha256) == recorded
            && BuildResultId(format, file, Some(recorded), sha256)
                == BuildResultId(format, file, Some(impression), sha256)
  {
  }

  /** Result ids and recorded impression ids as they are written. */
  lemma ResultIdSpelled(format: MediaFormat, file: nat, impression: string, sha256: string -> string)
    requires IsUuid(file) && IsDigest(sha256) && impression != ""
    ensures var recorded := if |impression| <= 29 then impression else "imp_" + sha256(impression)[..24];
            && BuildResultId(Photo, file, Some(impression), sha256) == "p:" + Hex(file, 32) + ":" + recorded
            && BuildResultId(Animation, file, Some(impression), sha256) == "a:" + Hex(file, 32) + ":" + recorded
            && BuildResultId(format, file, None, sha256) == (if format == Photo then "p:" else "a:") + Hex(file, 32)
  {
    hide Hex;
    RecordedFits(file, impression, sha256);
    assert "p" + ":" + Hex(file, 32) == "p:" + Hex(file, 32) && "a" + ":" + Hex(file, 32) == "a:" + Hex(file, 32);
  }

  /** Callback data is lib:action:result, and anything that does not start so parses to nothing. */
  lemma CallbackSpelled(action: string, resultId: string, data: string)
    ensures BuildCallbackData(action, resultId) == "lib:" + action + ":" + resultId
    ensures ParseCallbackData(None) == Callback(None, None, None)
    ensures !("lib:" <= data) ==> ParseCallbackData(Some(data)) == Callback(None, None, None)
    ensures ':' !in data ==> ParseCallbackData(Some(data)) == Callback(None, None, None)
  {
    assert "lib" + ":" + action == "lib:" + action;
    if CutTwice(data).Some? && CutTwice(data).value.0 == "lib" {
      var rest := Cut(data).value.1;
      assert data == "lib" + ":" + rest == "lib:" + rest;
    }
  }

  /** Equal result ids mean the same format, file and recorded impression. */
  lemma ResultIdDetermines(
    format: MediaFormat, file: nat, impression: Option<string>,
    format': MediaFormat, file': nat, impression': Option<string>, sha256: string -> string)
    requires IsUuid(file) && IsUuid(file') && IsDigest(sha256)
    requires BuildResultId(format, file, impression, sha256) == BuildResultId(format', file', impression', sha256)
    ensures format == format' && file == file'
    ensures impression.GetOr("") == "" <==> impression'.GetOr("") == ""
    ensures impression.GetOr("") != "" ==>
              ResultImpressionId(file, impression.value, sha256) == ResultImpressionId(file', impression'.value, sha256)
  {
    ResultIdRoundTrip(format, file, impression, sha256);
    ResultIdRoundTrip(format', file', impression', sha256);
    assert BuildResultId(format, file, impression, sha256)[0] == Prefix(format)[0];
    assert BuildResultId(format', file', impression', sha256)[0] == Prefix(format')[0];
    if impression.GetOr("") != "" { assert ResultImpressionId(file, impression.value, sha256) != ""; }
  }

  /** An impression id comes back as given exactly if it has at most 29 characters. */
  lemma ShortImpressionsSurvive(format: MediaFormat, file: nat, impression: string, sha256: string -> string)
    requires IsUuid(file) && IsDigest(sha256) && impression != ""
    ensures ParseImpressionId(BuildResultId(format, file, Some(impression), sha256)) == Some(impression) <==>
            |impression| <= 29
  {
    ResultIdRoundTrip(format, file, Some(impression), sha256);
    RecordedFits(file, impression, sha256);
  }
}
