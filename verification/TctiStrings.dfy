/** The checks on TCTI configuration strings and startup modes, in the real context and in the fake one. */
module TctiStrings {
  import opened Common

  predicate IsSpace(c: char) {
    c == ' ' || '\t' <= c <= '\r'
  }

  predicate AllSpace(s: string) {
    forall k :: 0 <= k < |s| ==> IsSpace(s[k])
  }

  /** A slice whose two ends are not white space. */
  predicate HasBareEnds(s: string) {
    s != "" ==> !IsSpace(s[0]) && !IsSpace(s[|s| - 1])
  }

  /** A trimmed string is what is left between white space on both sides. */
  ghost predicate IsTrimOf(t: string, s: string) {
    HasBareEnds(t) && exists first, last :: 0 <= first <= last <= |s| && IsTrimAt(t, s, first, last)
  }

  ghost predicate IsTrimAt(t: string, s: string, first: nat, last: nat)
    requires first <= last <= |s|
  {
    t == s[first..last] && AllSpace(s[..first]) && AllSpace(s[last..])
  }

  function Trim(s: string): string
    decreases |s|
  {
    if s == "" then ""
    else if IsSpace(s[0]) then Trim(s[1..])
    else if IsSpace(s[|s| - 1]) then Trim(s[..|s| - 1])
    else s
  }

  method TrimView(value: string) returns (t: string)
    ensures t == Trim(value)
  {
    var first, last := 0, |value|;
    assert value[first..last] == value;
    while first < last && IsSpace(value[first])
      invariant 0 <= first <= last == |value|
      invariant Trim(value) == Trim(value[first..last])
      decreases last - first
    {
      assert value[first..last][1..] == value[first + 1..last];
      first := first + 1;
    }
    while last > first && IsSpace(value[last - 1])
      invariant 0 <= first <= last <= |value|
      invariant first < last ==> !IsSpace(value[first])
      invariant Trim(value) == Trim(value[first..last])
    {
      assert value[first..last][..last - 1 - first] == value[first..last - 1];
      last := last - 1;
    }
    return value[first..last];
  }

  lemma SpaceInFront(c: char, s: string)
    requires IsSpace(c) && AllSpace(s)
    ensures AllSpace([c] + s)
  {
    hide IsSpace;
  }

  lemma SpaceBehind(s: string, c: char)
    requires IsSpace(c) && AllSpace(s)
    ensures AllSpace(s + [c])
  {
    hide IsSpace;
  }

  lemma TrimIsTrimAfterSpace(t: string, s: string)
    requires s != "" && IsSpace(s[0]) && IsTrimOf(t, s[1..])
    ensures IsTrimOf(t, s)
  {
    var s' := s[1..];
    hide IsSpace, HasBareEnds, AllSpace;
    var first, last :| 0 <= first <= last <= |s'| && IsTrimAt(t, s', first, last);
    assert s[..first + 1] == [s[0]] + s'[..first];
    SpaceInFront(s[0], s'[..first]);
    assert s[last + 1..] == s'[last..];
    assert s[first + 1..last + 1] == s'[first..last];
    assert IsTrimAt(t, s, first + 1, last + 1);
  }

  lemma TrimIsTrimBeforeSpace(t: string, s: string)
    requires s != "" && IsSpace(s[|s| - 1]) && IsTrimOf(t, s[..|s| - 1])
    ensures IsTrimOf(t, s)
  {
    var n := |s| - 1;
    var s' := s[..n];
    hide IsSpace, HasBareEnds, AllSpace;
    var first, last :| 0 <= first <= last <= |s'| && IsTrimAt(t, s', first, last);
    assert s[last..] == s'[last..] + [s[n]];
    SpaceBehind(s'[last..], s[n]);
    assert s[..first] == s'[..first];
    assert s[first..last] == s'[first..last];
    assert IsTrimAt(t, s, first, last);
  }

  lemma {:induction false} TrimIsTrim(s: string)
    ensures IsTrimOf(Trim(s), s)
    decreases |s|
  {
    if s == "" {
      assert IsTrimAt("", s, 0, 0);
    } else if IsSpace(s[0]) {
      hide IsTrimOf;
      TrimIsTrim(s[1..]);
      TrimIsTrimAfterSpace(Trim(s), s);
    } else if IsSpace(s[|s| - 1]) {
      hide IsTrimOf;
      TrimIsTrim(s[..|s| - 1]);
      TrimIsTrimBeforeSpace(Trim(s), s);
    } else {
      assert IsTrimAt(s, s, 0, |s|);
    }
  }

  /** The trimmed string is the longest slice with bare ends: every other one lies inside it. */
  lemma TrimIsLongest(s: string, from: nat, to: nat)
    requires from <= to <= |s| && HasBareEnds(s[from..to])
    ensures to - from <= |Trim(s)|
  {
    TrimIsTrim(s);
    var first, last :| 0 <= first <= last <= |s| && IsTrimAt(Trim(s), s, first, last);
    if from < to {
      assert s[from..to][0] == s[from] && s[from..to][to - from - 1] == s[to - 1];
      forall k | 0 <= k < first ensures IsSpace(s[k]) { assert s[..first][k] == s[k]; }
      forall k | last <= k < |s| ensures IsSpace(s[k]) { assert s[last..][k - last] == s[k]; }
    }
  }

  /** Nothing is trimmed off exactly when both ends are bare. */
  lemma TrimKeepsBareEnds(s: string)
    ensures |Trim(s)| <= |s|
    ensures |Trim(s)| == |s| <==> HasBareEnds(s)
    ensures |Trim(s)| == |s| ==> Trim(s) == s
  {
    TrimIsTrim(s);
    if HasBareEnds(s) {
      assert s[0..|s|] == s;
      TrimIsLongest(s, 0, |s|);
    }
  }

  /** The position of the first colon, or the length if there is none. */
  function FindColon(s: string): (k: nat)
    ensures k <= |s|
    ensures k < |s| ==> s[k] == ':'
    ensures forall j :: 0 <= j < k ==> s[j] != ':'
  {
    if s == "" || s[0] == ':' then 0 else 1 + FindColon(s[1..])
  }

  predicate HasNameArgsShape(s: string) {
    FindColon(s) < |s| && FindColon(s) > 0
  }

  const TCTI_INVALID := Error(InputError, "TCTI configuration must use name:args format")
  const STARTUP_INVALID := Error(InputError, "TPM startup mode is invalid")

  /** The loader's check: its three reasons for rejection share one message. */
  function ValidateTcti(config: string): Outcome<string> {
    if Trim(config) == "" then Err(TCTI_INVALID)
    else if |Trim(config)| != |config| then Err(TCTI_INVALID)
    else if !HasNameArgsShape(Trim(config)) then Err(TCTI_INVALID)
    else Ok(Trim(config))
  }

  predicate IsKnownName(name: string) {
    name == "device" || name == "mssim" || name == "swtpm" || name == "tabrmd"
  }

  /** The name that may appear in a log: empty for a malformed string, a known module name, or a placeholder. */
  function SanitizedName(config: string): string {
    var trimmed := Trim(config);
    var colon := FindColon(trimmed);
    if trimmed == "" || |trimmed| != |config| || colon == |trimmed| || colon == 0 then ""
    else if IsKnownName(trimmed[..colon]) then trimmed[..colon]
    else "<custom>"
  }

  /** The underlying value of a startup mode; only three of them are enumerators. */
  type ModeValue = int
  const CLEAR: ModeValue := 0
  const STATE: ModeValue := 1
  const SKIP: ModeValue := 2

  predicate IsValidMode(mode: ModeValue) { mode in {CLEAR, STATE, SKIP} }

  /** The two checks of the real creation path that precede any backend call, in their order. */
  function RealVerdict(config: string, mode: ModeValue): Outcome<string> {
    if !IsValidMode(mode) then Err(STARTUP_INVALID) else ValidateTcti(config)
  }

  predicate FakeAcceptsString(config: string) {
    Trim(config) != "" && |Trim(config)| == |config| && HasNameArgsShape(Trim(config))
  }

  /** The check of the fake context, which stores the configuration it accepts. */
  function FakeVerdict(config: string, mode: ModeValue): Outcome<string> {
    if !IsValidMode(mode) then Err(STARTUP_INVALID)
    else if !FakeAcceptsString(config) then Err(TCTI_INVALID)
    else Ok(config)
  }

  /** A context configuration; a logger, which may be absent, is known by a number. */
  datatype ContextConfig = ContextConfig(tcti: string, startup: ModeValue, log: Option<nat>)

  class FakeContext {
    var lastConfig: ContextConfig

    constructor (config: ContextConfig)
      ensures lastConfig == config
    {
      lastConfig := config;
    }

    static method Create(config: ContextConfig) returns (context: FakeContext?, error: Option<Error>)
      ensures context != null <==> FakeVerdict(config.tcti, config.startup).Ok?
      ensures context != null ==> fresh(context) && context.lastConfig == config && error.None?
      ensures context == null ==> error == Some(FakeVerdict(config.tcti, config.startup).error)
    {
      if config.startup != CLEAR && config.startup != STATE && config.startup != SKIP {
        return null, Some(STARTUP_INVALID);
      }
      var trimmed := TrimView(config.tcti);
      if trimmed == "" || |trimmed| != |config.tcti| || !HasNameArgsShape(trimmed) {
        return null, Some(TCTI_INVALID);
      }
      context := new FakeContext(config);
      error := None;
    }

    /** The other entry point fills a configuration from its parts. */
    static method CreateFromParts(tcti: string, startup: ModeValue, log: Option<nat>)
        returns (context: FakeContext?, error: Option<Error>)
      ensures context != null <==> FakeVerdict(tcti, startup).Ok?
      ensures context != null ==>
        fresh(context) && context.lastConfig == ContextConfig(tcti, startup, log) && error.None?
      ensures context == null ==> error == Some(FakeVerdict(tcti, startup).error)
    {
      context, error := Create(ContextConfig(tcti, startup, log));
    }
  }

  /** The characters that isspace is true of in the C locale. */
  predicate IsBlank(c: char) {
    c == ' ' || c == '\t' || c == '\n' || c == '\U{0B}' || c == '\U{0C}' || c == '\r'
  }

  /** What the string check accepts, said without trimming: bare ends, and a colon that is not in front. */
  predicate IsNameArgs(config: string) {
    && config != "" && !IsBlank(config[0]) && !IsBlank(config[|config| - 1])
    && config[0] != ':' && ':' in config
  }

  lemma AcceptedStrings(config: string)
    ensures ValidateTcti(config).Ok? <==> IsNameArgs(config)
    ensures ValidateTcti(config).Ok? ==> ValidateTcti(config).value == config
  {
    TrimKeepsBareEnds(config);
    if ':' in config {
      var k :| 0 <= k < |config| && config[k] == ':';
      assert FindColon(config) <= k;
    }
  }

  /** The fake and the real path agree on every string and mode; the mode is complained about first. */
  lemma FakeAgreesWithReal(config: string, mode: ModeValue)
    ensures FakeVerdict(config, mode) == RealVerdict(config, mode)
    ensures FakeVerdict(config, mode).Ok? <==> IsValidMode(mode) && IsNameArgs(config)
    ensures RealVerdict(config, mode) ==
              if mode < 0 || mode > 2 then Err(Error(InputError, "TPM startup mode is invalid"))
              else if !IsNameArgs(config) then Err(Error(InputError, "TCTI configuration must use name:args format"))
              else Ok(config)
  {
    AcceptedStrings(config);
  }

  /** A name is logged exactly for well-formed strings, and it never carries anything but a known module name. */
  lemma SanitizedNameIsSafe(config: string)
    ensures SanitizedName(config) != "" <==> ValidateTcti(config).Ok?
    ensures SanitizedName(config) in {"", "device", "mssim", "swtpm", "tabrmd", "<custom>"}
  {
    if ValidateTcti(config).Ok? {
      TrimKeepsBareEnds(config);
      assert |config[..FindColon(config)]| > 0;
    }
  }

  /**
    A known name is logged exactly for the accepted strings that start with it and a colon; so the placeholder stands
    for all other accepted strings.
   */
  lemma SanitizedNameExactly(config: string, name: string)
    requires name == "device" || name == "mssim" || name == "swtpm" || name == "tabrmd"
    ensures SanitizedName(config) == name <==> IsNameArgs(config) && name + ":" <= config
  {
    AcceptedStrings(config);
    TrimKeepsBareEnds(config);
    if IsNameArgs(config) {
      hide Trim;
      assert Trim(config) == config && 0 < FindColon(config) < |config|;
      KnownNameEndsAtColon(config, name);
    }
  }

  lemma KnownNameEndsAtColon(config: string, name: string)
    requires ':' !in name && FindColon(config) < |config|
    ensures name + ":" <= config <==> config[..FindColon(config)] == name
  {
    var colon := FindColon(config);
    hide FindColon;
    assert config[..colon + 1] == config[..colon] + ":";
    if name + ":" <= config {
      assert config[|name|] == (name + ":")[|name|] == ':';
      assert forall j :: 0 <= j < |name| ==> name[j] == (name + ":")[j] == config[j];
    }
  }
}
