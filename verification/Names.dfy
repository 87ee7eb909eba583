/** Names and ARNs: `executor/sfnconventions`, the identifiers of `embedded`, and the two parsers
    of the execution-events consumer. Each printer is paired with its parser, and each round trip
    is given with the exact condition under which it holds. */
module Names {
  import opened Wrappers
  import opened Strings

  const BAD_CHARS: seq<char> :=
    [' ', '<', '>', '{', '}', '[', ']', '?', '*', '"', '#', '%', '\\', '^', '|', '~', '`', '$', '&', ',', ';', ':', '/']

  const DASHES := "--"

  datatype SMParts = SMParts(wdName: string, wdVersion: int, namespace: string, startAt: string)

  datatype NameError = NotFourParts | VersionNotInt | TooFewParts | UnexpectedLogGroupFormat

  // ---------- state machine names ----------

  function RawName(parts: SMParts): string {
    parts.namespace + DASHES + (parts.wdName + DASHES + (Itoa(parts.wdVersion) + DASHES + parts.startAt))
  }

  /** `strings.Replace(s, string(c), "-", -1)`. */
  function ReplaceAll(s: string, c: char): string {
    seq(|s|, i requires 0 <= i < |s| => if s[i] == c then '-' else s[i])
  }

  /** All replacements at once. */
  function Sanitize(s: string): string {
    seq(|s|, i requires 0 <= i < |s| => if s[i] in BAD_CHARS then '-' else s[i])
  }

  method StateMachineName(parts: SMParts) returns (name: string)
    ensures name == Sanitize(RawName(parts))
    ensures |name| == |RawName(parts)| && forall c :: c in name ==> c !in BAD_CHARS
  {
    hide RawName;
    var raw := RawName(parts);
    name := raw;
    for k := 0 to |BAD_CHARS|
      invariant |name| == |raw|
      invariant forall i :: 0 <= i < |raw| ==> name[i] == if raw[i] in BAD_CHARS[..k] then '-' else raw[i]
    {
      name := ReplaceAll(name, BAD_CHARS[k]);
      assert BAD_CHARS[..k + 1] == BAD_CHARS[..k] + [BAD_CHARS[k]];
      assert '-' !in BAD_CHARS;
    }
    assert BAD_CHARS[..|BAD_CHARS|] == BAD_CHARS;
  }

  function StateMachineNameParts(name: string): Result<SMParts, NameError> {
    var parts := Split(name, DASHES);
    if |parts| != 4 then Failure(NotFourParts)
    else match Atoi(parts[2])
      case None => Failure(VersionNotInt)
      case Some(version) => Success(SMParts(parts[1], version, parts[0], parts[3]))
  }

  predicate EndsInDash(s: string) {
    s != [] && s[|s| - 1] == '-'
  }

  /** Survives both the replacement of bad characters and the cutting at double dashes. */
  predicate Clean(s: string) {
    (forall c :: c in s ==> c !in BAD_CHARS) && !Contains(s, DASHES)
  }

  lemma DashesAt(s: string)
    ensures forall j :: OccursAt(s, DASHES, j) <==> 0 <= j < |s| - 1 && s[j] == '-' && s[j + 1] == '-'
    ensures Contains(s, DASHES) <==> exists j :: 0 <= j < |s| - 1 && s[j] == '-' && s[j + 1] == '-'
  {
    forall j ensures OccursAt(s, DASHES, j) <==> 0 <= j < |s| - 1 && s[j] == '-' && s[j + 1] == '-' {
      if 0 <= j < |s| - 1 {
        assert s[j..j + 2] == [s[j], s[j + 1]];
      }
    }
    forall j | 0 <= j < |s| - 1 && s[j] == '-' && s[j + 1] == '-' ensures Contains(s, DASHES) {
      ContainsAt(s, DASHES, j);
    }
    var r := Index(s, DASHES);
    assert r != -1 ==> s[r] == '-' && s[r + 1] == '-';
  }

  lemma DashesAfter(head: string, tail: string)
    requires !Contains(head, DASHES) && !EndsInDash(head)
    ensures Index(head + DASHES + tail, DASHES) == |head|
    ensures Split(head + DASHES + tail, DASHES) == [head] + Split(tail, DASHES)
  {
    var s := head + DASHES + tail;
    DashesAt(head);
    DashesAt(s);
    forall j | 0 <= j < |head| ensures !OccursAt(s, DASHES, j) {
      assert s[j] == head[j];
      assert j + 1 < |head| ==> s[j + 1] == head[j + 1];
    }
    IndexIs(s, DASHES, |head|);
    SplitAtHead(head, DASHES, tail);
  }

  lemma CutHead(s: string)
    requires Contains(s, DASHES)
    ensures var head := s[..Index(s, DASHES)]; !Contains(head, DASHES) && !EndsInDash(head)
  {
    CleanBeforeIndex(s, DASHES);
    DashesAt(s);
    var i := Index(s, DASHES);
    assert i > 0 ==> !OccursAt(s, DASHES, i - 1);
    hide Index, Contains;
  }

  /** Takes a string apart at its first double dash. */
  lemma Cut(s: string) returns (head: string, rest: string)
    requires Contains(s, DASHES)
    ensures s == head + DASHES + rest && Index(s, DASHES) == |head|
    ensures Split(s, DASHES) == [head] + Split(rest, DASHES)
    ensures !Contains(head, DASHES) && !EndsInDash(head)
  {
    var i := Index(s, DASHES);
    head, rest := s[..i], s[i + 2..];
    CutHead(s);
    Recompose(s, DASHES, i);
  }

  lemma SignedDigitsAreClean(sign: string, digits: string)
    requires sign == "" || sign == "-"
    requires digits != [] && forall c :: c in digits ==> IsDigit(c)
    ensures Clean(sign + digits) && !EndsInDash(sign + digits)
  {
    var s := sign + digits;
    DashesAt(s);
    forall i | |sign| <= i < |s| ensures IsDigit(s[i]) {
      assert s[i] == digits[i - |sign|];
    }
  }

  lemma ItoaIsClean(n: int)
    ensures Clean(Itoa(n)) && !EndsInDash(Itoa(n))
  {
    if n < 0 {
      SignedDigitsAreClean("-", DigitsOf(-n));
    } else {
      SignedDigitsAreClean("", DigitsOf(n));
      assert "" + DigitsOf(n) == DigitsOf(n);
    }
  }

  lemma SanitizeKeepsClean(s: string)
    requires forall c :: c in s ==> c !in BAD_CHARS
    ensures Sanitize(s) == s
  {
  }

  lemma UncutSplit(s: string)
    requires !Contains(s, DASHES)
    ensures Split(s, DASHES) == [s]
  {
  }

  lemma CleanPiecesSplit(a: string, b: string, c: string, d: string)
    requires Clean(a) && Clean(b) && Clean(c) && Clean(d)
    requires !EndsInDash(a) && !EndsInDash(b) && !EndsInDash(c)
    ensures Split(a + DASHES + (b + DASHES + (c + DASHES + d)), DASHES) == [a, b, c, d]
  {
    var cd := c + DASHES + d;
    var bcd := b + DASHES + cd;
    UncutSplit(d);
    hide Split;
    DashesAfter(c, d);
    DashesAfter(b, cd);
    DashesAfter(a, bcd);
  }

  lemma CleanNameSplits(parts: SMParts)
    requires Clean(parts.namespace) && !EndsInDash(parts.namespace)
    requires Clean(parts.wdName) && !EndsInDash(parts.wdName)
    requires Clean(parts.startAt)
    ensures Split(RawName(parts), DASHES) == [parts.namespace, parts.wdName, Itoa(parts.wdVersion), parts.startAt]
  {
    ItoaIsClean(parts.wdVersion);
    CleanPiecesSplit(parts.namespace, parts.wdName, Itoa(parts.wdVersion), parts.startAt);
  }

  predicate Invertible(parts: SMParts) {
    && Clean(parts.namespace) && !EndsInDash(parts.namespace)
    && Clean(parts.wdName) && !EndsInDash(parts.wdName)
    && Clean(parts.startAt)
  }

  /** `StateMachineNameParts` recovers the four parts of a state machine name exactly when no part
      holds a bad character or a double dash and the first two do not end in a dash. */
  lemma NameRoundTrip(parts: SMParts)
    requires IsInt64(parts.wdVersion)
    ensures StateMachineNameParts(Sanitize(RawName(parts))) == Success(parts) <==> Invertible(parts)
    ensures Invertible(parts) ==>
              Split(Sanitize(RawName(parts)), "--")
              == [parts.namespace, parts.wdName, Itoa(parts.wdVersion), parts.startAt]
  {
    if Invertible(parts) {
      ItoaIsClean(parts.wdVersion);
      SanitizeKeepsClean(RawName(parts));
      CleanNameSplits(parts);
      AtoiOfItoa(parts.wdVersion);
    }
    if StateMachineNameParts(Sanitize(RawName(parts))) == Success(parts) {
      InvertibleFromName(parts, Sanitize(RawName(parts)));
    }
  }

  lemma InvertibleFromName(parts: SMParts, name: string)
    requires forall c :: c in name ==> c !in BAD_CHARS
    requires StateMachineNameParts(name) == Success(parts)
    ensures Invertible(parts)
  {
    var pieces := Split(name, DASHES);
    SplitPartsAreClean(name, DASHES);
    SplitPartsOccur(name, DASHES);
    assert forall p :: p in pieces ==> Clean(p);
    assert pieces[0] in pieces && pieces[1] in pieces && pieces[3] in pieces;
    var head, rest := Cut(name);
    assert Split(rest, DASHES) == pieces[1..];
    var head', _ := Cut(rest);
    assert head == pieces[0] && head' == pieces[1];
  }

  lemma {:induction false} SplitPartsOccur(s: string, sep: string)
    requires sep != []
    ensures forall p, c :: p in Split(s, sep) && c in p ==> c in s
    decreases |s|
  {
    var i := Index(s, sep);
    if i != -1 {
      SplitPartsOccur(s[i + |sep|..], sep);
    }
  }

  // ---------- workflow ids of the embedded manager ----------

  const MAX_ID_LENGTH := 80

  datatype WorkflowIDParts = WorkflowIDParts(smName: string, suffix: string)

  /** `shortUuid` is the random part used when no suffix is given. */
  function EffectiveSuffix(suffix: string, shortUuid: string): string {
    if suffix == "" then shortUuid else suffix
  }

  function WorkflowID(smName: string, suffix: string, shortUuid: string): string {
    var id := smName + DASHES + EffectiveSuffix(suffix, shortUuid);
    if |id| > MAX_ID_LENGTH then id[..MAX_ID_LENGTH] else id
  }

  function ParseWorkflowID(wid: string): Result<WorkflowIDParts, NameError> {
    var s := Split(wid, DASHES);
    if |s| < 2 then Failure(TooFewParts)
    else Success(WorkflowIDParts(Join(s[..|s| - 1], DASHES), s[|s| - 1]))
  }

  /** What is left of the suffix after cutting the id to eighty bytes. */
  function KeptSuffix(smName: string, suffix: string): string {
    var room := MAX_ID_LENGTH - |smName| - 2;
    if room < 0 then "" else if |suffix| > room then suffix[..room] else suffix
  }

  /** Number of dashes at the end. */
  function TrailingDashes(s: string): nat {
    if EndsInDash(s) then 1 + TrailingDashes(s[..|s| - 1]) else 0
  }

  function Last(parts: seq<string>): string
    requires parts != []
  {
    parts[|parts| - 1]
  }

  function Init(parts: seq<string>): seq<string>
    requires parts != []
  {
    parts[..|parts| - 1]
  }

  lemma {:induction false} SplitDashesAppend(a: string, b: string)
    requires !EndsInDash(Last(Split(a, DASHES)))
    ensures Split(a + DASHES + b, DASHES) == Split(a, DASHES) + Split(b, DASHES)
    decreases |a|
  {
    if !Contains(a, DASHES) {
      UncutSplit(a);
      DashesAfter(a, b);
    } else {
      var head, rest := Cut(a);
      hide Split;
      hide Index;
      SplitDashesAppend(rest, b);
      Regroup(head, rest, b, DASHES);
      DashesAfter(head, rest + DASHES + b);
      ConsAppend(head, Split(rest, DASHES), Split(b, DASHES));
    }
  }

  lemma TwoPiecesAreCut(s: string)
    requires |Split(s, DASHES)| >= 2
    ensures Contains(s, DASHES)
  {
  }

  lemma JoinOne(piece: string, sep: string)
    ensures Join([piece], sep) == piece
  {
  }

  /** Dropping the last piece of a split and joining gives a string that splits into the rest. */
  lemma {:induction false} SplitOfInit(s: string)
    requires |Split(s, DASHES)| >= 2
    ensures var init := Init(Split(s, DASHES));
            Split(Join(init, DASHES), DASHES) == init && !EndsInDash(Last(init))
    decreases |s|
  {
    TwoPiecesAreCut(s);
    hide Split, Join, EndsInDash, Contains, Index;
    var head, rest := Cut(s);
    var init, more := Init(Split(s, DASHES)), Split(rest, DASHES);
    if |more| == 1 {
      assert init == [head];
      UncutSplit(head);
      JoinOne(head, DASHES);
    } else {
      SplitOfInit(rest);
      assert init == [head] + Init(more);
      JoinCons(head, Init(more), DASHES);
      DashesAfter(head, Join(Init(more), DASHES));
    }
  }

  lemma {:induction false} JoinSnoc(init: seq<string>, last: string, sep: string)
    requires init != []
    ensures Join(init + [last], sep) == Join(init, sep) + sep + last
  {
    if |init| == 1 {
      JoinCons(init[0], [last], sep);
    } else {
      JoinSnoc(init[1..], last, sep);
      JoinCons(init[0], init[1..] + [last], sep);
      assert init + [last] == [init[0]] + (init[1..] + [last]);
    }
  }

  lemma {:induction false} TrailingDashesAppend(a: string, b: string)
    ensures TrailingDashes(a + b) ==
            if TrailingDashes(b) == |b| then |b| + TrailingDashes(a) else TrailingDashes(b)
    decreases |b|
  {
    if b == [] {
      assert a + b == a;
    } else {
      var b' := b[..|b| - 1];
      assert (a + b)[..|a + b| - 1] == a + b';
      TrailingDashesBound(b');
      if EndsInDash(b) { TrailingDashesAppend(a, b'); }
    }
  }

  lemma TrailingDashesBound(s: string)
    ensures TrailingDashes(s) <= |s|
  {
  }

  lemma TrailingDashesAfter(head: string, rest: string)
    requires !EndsInDash(head)
    ensures TrailingDashes(head + DASHES + rest) % 2 == TrailingDashes(rest) % 2
  {
    assert TrailingDashes(DASHES[..1]) == 1;
    assert TrailingDashes(DASHES) == 2;
    TrailingDashesAppend(head, DASHES);
    TrailingDashesAppend(head + DASHES, rest);
  }

  lemma TrailingDashesOfUncut(s: string)
    requires !Contains(s, DASHES)
    ensures TrailingDashes(s) == if EndsInDash(s) then 1 else 0
  {
    DashesAt(s);
    if EndsInDash(s) {
      assert |s| > 1 ==> s[|s| - 2] != '-';
      assert TrailingDashes(s[..|s| - 1]) == 0;
    }
  }

  lemma {:induction false} LastPieceEndsInDash(s: string)
    ensures EndsInDash(Last(Split(s, DASHES))) <==> TrailingDashes(s) % 2 == 1
    decreases |s|
  {
    if !Contains(s, DASHES) {
      UncutSplit(s);
      TrailingDashesOfUncut(s);
    } else {
      hide Split;
      var head, rest := Cut(s);
      LastPieceEndsInDash(rest);
      TrailingDashesAfter(head, rest);
    }
  }

  predicate Recoverable(smName: string, suffix: string) {
    && |smName| <= MAX_ID_LENGTH - 2
    && TrailingDashes(smName) % 2 == 0
    && !Contains(KeptSuffix(smName, suffix), DASHES)
  }

  lemma WorkflowIDShape(smName: string, suffix: string, shortUuid: string)
    requires |smName| <= MAX_ID_LENGTH - 2
    ensures WorkflowID(smName, suffix, shortUuid)
         == smName + DASHES + KeptSuffix(smName, EffectiveSuffix(suffix, shortUuid))
  {
  }

  /** The state machine name can be read back from a workflow id, even after the cut to eighty bytes,
      exactly when it leaves room for the separator, ends in an even number of dashes, and what is
      kept of the suffix has no double dash. */
  lemma WorkflowIDRoundTrip(smName: string, suffix: string, shortUuid: string)
    ensures var eff := EffectiveSuffix(suffix, shortUuid);
            var parsed := ParseWorkflowID(WorkflowID(smName, suffix, shortUuid));
            && ((parsed.Success? && parsed.value.smName == smName) <==> Recoverable(smName, eff))
            && (Recoverable(smName, eff) ==> parsed.value.suffix == KeptSuffix(smName, eff))
    ensures var full := smName + "--" + if suffix == "" then shortUuid else suffix;
            var id := WorkflowID(smName, suffix, shortUuid);
            id <= full && |id| <= 80 && (|full| <= 80 ==> id == full) && (|full| > 80 ==> |id| == 80)
  {
    var eff := EffectiveSuffix(suffix, shortUuid);
    var parsed := ParseWorkflowID(WorkflowID(smName, suffix, shortUuid));
    if Recoverable(smName, eff) {
      RecoverableIsRecovered(smName, suffix, shortUuid);
    }
    if parsed.Success? && parsed.value.smName == smName {
      RecoveredIsRecoverable(smName, suffix, shortUuid);
    }
  }

  lemma RecoverableIsRecovered(smName: string, suffix: string, shortUuid: string)
    requires Recoverable(smName, EffectiveSuffix(suffix, shortUuid))
    ensures ParseWorkflowID(WorkflowID(smName, suffix, shortUuid))
         == Success(WorkflowIDParts(smName, KeptSuffix(smName, EffectiveSuffix(suffix, shortUuid))))
  {
    hide Split;
    hide Join;
    var kept := KeptSuffix(smName, EffectiveSuffix(suffix, shortUuid));
    WorkflowIDShape(smName, suffix, shortUuid);
    LastPieceEndsInDash(smName);
    SplitDashesAppend(smName, kept);
    UncutSplit(kept);
    assert Init(Split(smName, DASHES) + [kept]) == Split(smName, DASHES);
    JoinOfSplit(smName, DASHES);
  }

  lemma RecoveredIsRecoverable(smName: string, suffix: string, shortUuid: string)
    requires var parsed := ParseWorkflowID(WorkflowID(smName, suffix, shortUuid));
             parsed.Success? && parsed.value.smName == smName
    ensures Recoverable(smName, EffectiveSuffix(suffix, shortUuid))
  {
    hide Split;
    hide Join;
    var id := WorkflowID(smName, suffix, shortUuid);
    var parts := Split(id, DASHES);
    var last := Last(parts);
    SplitOfInit(id);
    JoinOfSplit(id, DASHES);
    assert parts == Init(parts) + [last];
    JoinSnoc(Init(parts), last, DASHES);
    LastPieceEndsInDash(smName);
    assert id == smName + DASHES + last;
    WorkflowIDShape(smName, suffix, shortUuid);
    assert last == id[|smName| + 2..] == KeptSuffix(smName, EffectiveSuffix(suffix, shortUuid));
    SplitPartsAreClean(id, DASHES);
    assert last in parts;
  }

  // ---------- ARNs ----------

  const COLON := ":"

  function ExecutionArn(region: string, accountID: string, stateMachineName: string, executionName: string): string {
    "arn:aws:states" + COLON + region + COLON + accountID + COLON + "execution" + COLON + stateMachineName
      + COLON + executionName
  }

  function LogGroupArn(region: string, accountID: string, stateMachineName: string): string {
    "arn:aws:logs" + COLON + region + COLON + accountID + COLON + "log-group" + COLON
      + ("/aws/vendedlogs/states/" + stateMachineName) + COLON + "*"
  }

  function ExecIDFromExecutionARN(arn: string): string {
    var parts := Split(arn, COLON);
    parts[|parts| - 1]
  }

  /** The source indexes the second last piece and so expects at least one colon. */
  function StateMachineFromExecutionARN(arn: string): string
    requires |Split(arn, COLON)| >= 2
  {
    var parts := Split(arn, COLON);
    parts[|parts| - 2]
  }

  function LogGroupName(arn: string): Result<string, NameError> {
    var parts := Split(arn, COLON);
    if |parts| != 8 then Failure(UnexpectedLogGroupFormat) else Success(parts[6])
  }

  lemma ColonAt(s: string)
    ensures forall j :: OccursAt(s, COLON, j) <==> 0 <= j < |s| && s[j] == ':'
  {
    forall j: int | 0 <= j < |s| ensures s[j..j + 1] == [s[j]] {}
  }

  lemma {:induction false} SplitColonAppend(a: string, b: string)
    ensures Split(a + COLON + b, COLON) == Split(a, COLON) + Split(b, COLON)
    decreases |a|
  {
    if !Contains(a, COLON) {
      ColonAfter(a, b);
    } else {
      var head, rest := CutColon(a);
      hide Split;
      hide Index;
      SplitColonAppend(rest, b);
      Regroup(head, rest, b, COLON);
      ColonAfter(head, rest + COLON + b);
      ConsAppend(head, Split(rest, COLON), Split(b, COLON));
    }
  }

  lemma CutColon(s: string) returns (head: string, rest: string)
    requires Contains(s, COLON)
    ensures s == head + COLON + rest
    ensures Split(s, COLON) == [head] + Split(rest, COLON)
    ensures !Contains(head, COLON)
  {
    var i := Index(s, COLON);
    head, rest := s[..i], s[i + 1..];
    CleanBeforeIndex(s, COLON);
    Recompose(s, COLON, i);
  }

  lemma ColonAfter(head: string, tail: string)
    requires !Contains(head, COLON)
    ensures Split(head + COLON + tail, COLON) == [head] + Split(tail, COLON)
  {
    var s := head + COLON + tail;
    ColonAt(head);
    ColonAt(s);
    forall j | 0 <= j < |head| ensures !OccursAt(s, COLON, j) {
      assert s[j] == head[j];
      assert OccursAt(head, COLON, j) <==> head[j] == ':';
    }
    IndexIs(s, COLON, |head|);
    SplitAtHead(head, COLON, tail);
  }

  predicate ColonFree(s: string) {
    ':' !in s
  }

  lemma ColonFreeSplit(s: string)
    ensures ColonFree(s) <==> |Split(s, COLON)| == 1
    ensures ColonFree(s) ==> Split(s, COLON) == [s]
    ensures !ColonFree(s) ==> Last(Split(s, COLON)) != s
  {
    ColonAt(s);
    SplitPartsAreClean(s, COLON);
    assert Last(Split(s, COLON)) in Split(s, COLON);
  }

  lemma ExecutionArnPieces(region: string, accountID: string, name: string, execID: string)
    requires ColonFree(name)
    ensures var pieces := Split(ExecutionArn(region, accountID, name, execID), COLON);
            exists front :: pieces == front + [name] + Split(execID, COLON)
  {
    var front := "arn:aws:states" + COLON + region + COLON + accountID + COLON + "execution";
    SplitColonAppend(front + COLON + name, execID);
    SplitColonAppend(front, name);
    ColonFreeSplit(name);
    assert Split(ExecutionArn(region, accountID, name, execID), COLON)
        == Split(front, COLON) + [name] + Split(execID, COLON);
  }

  lemma ArnFields(service: string, region: string, accountID: string, kind: string, name: string)
    requires ColonFree(service) && ColonFree(region) && ColonFree(accountID) && ColonFree(kind)
    ensures Split("arn:aws:" + service + ":" + region + ":" + accountID + ":" + kind + ":" + name, ":")
         == ["arn", "aws", service, region, accountID, kind] + Split(name, ":")
  {
    hide Split;
    var e := kind + ":" + name;
    var d := accountID + ":" + e;
    var c := region + ":" + d;
    var b := service + ":" + c;
    var a := "aws" + ":" + b;
    SplitColonCons("arn", a);
    SplitColonCons("aws", b);
    SplitColonCons(service, c);
    SplitColonCons(region, d);
    SplitColonCons(accountID, e);
    SplitColonCons(kind, name);
    assert "arn:aws:" + service + ":" + region + ":" + accountID + ":" + kind + ":" + name == "arn" + ":" + a;
  }

  lemma ExecutionArnFields(region: string, accountID: string, name: string, execID: string)
    requires ColonFree(region) && ColonFree(accountID) && ColonFree(name)
    ensures Split(ExecutionArn(region, accountID, name, execID), ":")
         == ["arn", "aws", "states", region, accountID, "execution", name] + Split(execID, ":")
  {
    hide Split;
    var tail := name + ":" + execID;
    ArnFields("states", region, accountID, "execution", tail);
    SplitColonCons(name, execID);
    assert "arn:aws:states" == "arn:aws:" + "states";
    assert ExecutionArn(region, accountID, name, execID)
        == "arn:aws:states" + ":" + region + ":" + accountID + ":" + "execution" + ":" + tail;
  }

  /** The consumer reads the state machine name and the execution id back from an execution ARN,
      for every region and account, exactly when the execution id has no colon. */
  lemma ExecutionArnRoundTrip(region: string, accountID: string, parts: SMParts, execID: string)
    ensures var arn := ExecutionArn(region, accountID, Sanitize(RawName(parts)), execID);
            && |Split(arn, COLON)| >= 2
            && ((ExecIDFromExecutionARN(arn) == execID
                 && StateMachineFromExecutionARN(arn) == Sanitize(RawName(parts)))
                <==> ColonFree(execID))
            && (ColonFree(region) && ColonFree(accountID) ==>
                  Split(arn, ":") == ["arn", "aws", "states", region, accountID, "execution", Sanitize(RawName(parts))]
                                     + Split(execID, ":"))
  {
    assert ':' in BAD_CHARS;
    ExecutionArnPieces(region, accountID, Sanitize(RawName(parts)), execID);
    ColonFreeSplit(execID);
    if ColonFree(region) && ColonFree(accountID) {
      ExecutionArnFields(region, accountID, Sanitize(RawName(parts)), execID);
    }
    hide Split, Sanitize, RawName;
  }

  /** A colon-free piece in front adds exactly itself to a split. */
  lemma SplitColonCons(a: string, b: string)
    requires ColonFree(a)
    ensures Split(a + COLON + b, COLON) == [a] + Split(b, COLON)
  {
    SplitColonAppend(a, b);
    ColonFreeSplit(a);
  }

  lemma LogGroupArnPieces(region: string, accountID: string, name: string)
    requires ColonFree(name)
    ensures Split(LogGroupArn(region, accountID, name), COLON)
         == ["arn", "aws", "logs"] + (Split(region, COLON) + (Split(accountID, COLON)
              + ["log-group", "/aws/vendedlogs/states/" + name, "*"]))
  {
    hide Split;
    var group := "/aws/vendedlogs/states/" + name;
    var tail := "log-group" + COLON + (group + COLON + "*");
    LogGroupTail(group);
    SplitColonAppend(accountID, tail);
    SplitColonAppend(region, accountID + COLON + tail);
    var front := region + COLON + (accountID + COLON + tail);
    ArnPrefix(front);
    assert LogGroupArn(region, accountID, name) == "arn:aws:logs" + COLON + front;
  }

  lemma LogGroupTail(group: string)
    requires ColonFree(group)
    ensures Split("log-group" + COLON + (group + COLON + "*"), COLON) == ["log-group", group, "*"]
  {
    SplitColonCons("log-group", group + COLON + "*");
    SplitColonCons(group, "*");
    ColonFreeSplit("*");
  }

  lemma ArnPrefix(rest: string)
    ensures Split("arn:aws:logs" + COLON + rest, COLON) == ["arn", "aws", "logs"] + Split(rest, COLON)
  {
    hide Split;
    var logs := "logs" + COLON + rest;
    var aws := "aws" + COLON + logs;
    assert "arn:aws:logs" + COLON + rest == "arn" + COLON + aws;
    SplitColonCons("arn", aws);
    SplitColonCons("aws", logs);
    SplitColonCons("logs", rest);
  }

  /** A log group ARN has its eight fields exactly when region and account have no colon; the seventh
      is then the log group that was put in. */
  lemma LogGroupArnRoundTrip(region: string, accountID: string, parts: SMParts)
    ensures var name := Sanitize(RawName(parts));
            var found := LogGroupName(LogGroupArn(region, accountID, name));
            && (found.Success? <==> ColonFree(region) && ColonFree(accountID))
            && (found.Success? ==>
                  && found.value == "/aws/vendedlogs/states/" + name
                  && Split(LogGroupArn(region, accountID, name), ":")
                     == ["arn", "aws", "logs", region, accountID, "log-group", "/aws/vendedlogs/states/" + name, "*"])
  {
    assert ':' in BAD_CHARS;
    LogGroupArnPieces(region, accountID, Sanitize(RawName(parts)));
    ColonFreeSplit(region);
    ColonFreeSplit(accountID);
    hide Split, Sanitize, RawName, LogGroupArn;
  }
}
