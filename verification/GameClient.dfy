/** `HttpGameClient` (game/client.py): how one request becomes one or more HTTP exchanges and one outcome. */
module GameClient {
  import opened Prelude
  import opened Text

  datatype StableCode = ConflictCode | InsufficientResourceCode | InventoryFullCode

  /** What the body of a 2xx answer is. */
  datatype Envelope = NotAnObject | OkFalse | Payload | Misshapen

  // ---- client versions ----

  predicate InSuffix(c: char) { IsDigit(c) || 'A' <= c <= 'Z' || 'a' <= c <= 'z' || c == '.' || c == '-' }

  /** What follows a number without superfluous zeros at the start of `s`; None if there is none. */
  function AfterNumber(s: string): Option<string>
  {
    if s == "" || !IsDigit(s[0]) then None
    else if s[0] == '0' then Some(s[1..])
    else Some(s[Digits(s)..])
  }

  /** What follows a number and a dot. */
  function AfterPart(s: string): Option<string>
  {
    var rest := AfterNumber(s);
    if rest.Some? && rest.value != "" && rest.value[0] == '.' then Some(rest.value[1..]) else None
  }

  /** `CLIENT_VERSION_PATTERN`, matched in full. */
  predicate IsVersion(s: string)
  {
    var minor := AfterPart(s);
    minor.Some? &&
    var patch := AfterPart(minor.value);
    patch.Some? &&
    var rest := AfterNumber(patch.value);
    rest.Some? && (rest.value == "" || (rest.value[0] == '-' && 2 <= |rest.value| <= 33
                                        && forall i | 0 < i < |rest.value| :: InSuffix(rest.value[i])))
  }

  /** A number without superfluous zeros. */
  predicate Number(s: string)
  {
    s != "" && (forall i | 0 <= i < |s| :: IsDigit(s[i])) && (|s| > 1 ==> s[0] != '0')
  }

  predicate Suffix(s: string)
  {
    s == "" || (2 <= |s| <= 33 && s[0] == '-' && forall i | 0 < i < |s| :: InSuffix(s[i]))
  }

  function Dotted(number: string, rest: string): string { number + ("." + rest) }

  /** The version is three numbers with dots between them, and a suffix. */
  predicate Parts(s: string, major: string, minor: string, patch: string, suffix: string)
  {
    && s == Dotted(major, Dotted(minor, patch + suffix))
    && Number(major) && Number(minor) && Number(patch) && Suffix(suffix)
  }

  /** A number is read off the front up to what is no digit. */
  lemma NumberIsRead(number: string, rest: string)
    requires Number(number) && (rest != "" ==> !IsDigit(rest[0]))
    ensures AfterNumber(number + rest) == Some(rest)
  {
    var s := number + rest;
    assert s[0] == number[0];
    DigitsEnd(number, rest);
    assert s[|number|..] == rest;
  }

  lemma ReadIsNumber(s: string) returns (number: string)
    requires AfterNumber(s).Some?
    ensures Number(number) && s == number + AfterNumber(s).value
  {
    DigitsAre(s);
    number := if s[0] == '0' then s[..1] else s[..Digits(s)];
  }

  lemma PartIsRead(number: string, rest: string)
    requires Number(number)
    ensures AfterPart(Dotted(number, rest)) == Some(rest)
  {
    var tail := "." + rest;
    assert tail[0] == '.' && tail[1..] == rest;
    NumberIsRead(number, tail);
  }

  lemma ReadIsPart(s: string) returns (number: string)
    requires AfterPart(s).Some?
    ensures Number(number) && s == Dotted(number, AfterPart(s).value)
  {
    number := ReadIsNumber(s);
    var tail := AfterNumber(s).value;
    assert tail == "." + tail[1..];
  }

  /** `IsVersion` is what the pattern of the source says. */
  lemma PartsAreVersion(s: string, major: string, minor: string, patch: string, suffix: string)
    requires Parts(s, major, minor, patch, suffix)
    ensures IsVersion(s)
  {
    PartIsRead(major, Dotted(minor, patch + suffix));
    PartIsRead(minor, patch + suffix);
    NumberIsRead(patch, suffix);
  }

  lemma VersionHasParts(s: string) returns (major: string, minor: string, patch: string, suffix: string)
    requires IsVersion(s)
    ensures Parts(s, major, minor, patch, suffix)
  {
    var b := AfterPart(s).value;
    var c := AfterPart(b).value;
    major := ReadIsPart(s);
    minor := ReadIsPart(b);
    patch := ReadIsNumber(c);
    suffix := AfterNumber(c).value;
  }

  // ---- one exchange ----

  /** One exchange as seen by the client: a transport failure, or a status and what could be read from the body. */
  datatype Exchange =
    | NoAnswer
    | Answered(status: int, code: Option<StableCode>, requiredVersion: Option<string>, envelope: Envelope)

  datatype Failure =
    | Ambiguous
    | Unavailable
    | SessionRejected
    | ClientVersionRejected(required: Option<string>)
    | InventoryFull
    | InsufficientResource
    | Conflict(code: Option<StableCode>)
    | RateLimited
    | SchemaMismatch
    | HttpError

  /** `_required_client_version`: what a 426 asks for, if it is a version at all. */
  function Required(x: Exchange): Option<string>
    requires x.Answered?
  {
    if x.requiredVersion.Some? && IsVersion(x.requiredVersion.value) then x.requiredVersion else None
  }

  datatype Outcome = Succeeded | Failed(failure: Failure)

  /** `_interpret_response`. */
  function Interpret(x: Exchange): Outcome
    requires x.Answered?
  {
    if !(200 <= x.status < 300) then
      Failed(
        if x.status == 401 || x.status == 403 then SessionRejected
        else if x.status == 426 then ClientVersionRejected(Required(x))
        else if x.status >= 500 then Unavailable
        else if x.code == Some(InventoryFullCode) then InventoryFull
        else if x.code == Some(InsufficientResourceCode) then InsufficientResource
        else if x.status == 409 then Conflict(x.code)
        else if x.status == 429 then RateLimited
        else HttpError)
    else
      match x.envelope
      case NotAnObject => Failed(SchemaMismatch)
      case OkFalse => Failed(Conflict(x.code))
      case Payload => Succeeded
      case Misshapen => Failed(SchemaMismatch)
  }

  /** What a mutating request makes of its one exchange. */
  function MutationResult(x: Exchange): Outcome
  {
    if x.NoAnswer? || Interpret(x) == Failed(Unavailable) then Failed(Ambiguous) else Interpret(x)
  }

  /** The game said no before doing any work: a version gate, a conflict, or a business refusal. */
  predicate Refused(x: Exchange)
  {
    x.Answered? && (x.status == 426 || x.status == 409 || (200 <= x.status < 300 && x.envelope.OkFalse?))
  }

  // ---- what the last exchange says, in terms of status, error code and body ----

  predicate Ok(x: Exchange) { x.Answered? && 200 <= x.status < 300 }

  /** The operation was done. */
  predicate Worked(x: Exchange) { Ok(x) && x.envelope == Payload }

  /** Nobody knows whether it was done: no answer, or a server error. */
  predicate Unclear(x: Exchange) { x.NoAnswer? || x.status >= 500 }

  predicate SessionGone(x: Exchange) { x.Answered? && (x.status == 401 || x.status == 403) }

  /** The body is not what was asked for. */
  predicate Garbled(x: Exchange) { Ok(x) && (x.envelope == NotAnObject || x.envelope == Misshapen) }

  /** A client error other than a rejected session or client version. */
  predicate ClientError(x: Exchange)
  {
    x.Answered? && !Ok(x) && x.status < 500 && x.status != 401 && x.status != 403 && x.status != 426
  }

  /** A conflict, or a refusal inside a 2xx answer. */
  predicate Conflicts(x: Exchange)
  {
    || (Ok(x) && x.envelope == OkFalse)
    || (ClientError(x) && x.status == 409 && x.code != Some(InventoryFullCode)
        && x.code != Some(InsufficientResourceCode))
  }

  /** The outcome of a request whose last exchange is `x`; `unclear` is what it makes of an unclear one. */
  predicate Means(x: Exchange, outcome: Outcome, unclear: Failure)
  {
    && (outcome == Succeeded <==> Worked(x))
    && (outcome == Failed(unclear) <==> Unclear(x))
    && (outcome == Failed(SessionRejected) <==> SessionGone(x))
    && (outcome == Failed(SchemaMismatch) <==> Garbled(x))
    && (outcome.Failed? && outcome.failure.ClientVersionRejected? <==> x.Answered? && x.status == 426)
    && (outcome.Failed? && outcome.failure.Conflict? <==> Conflicts(x))
    && (outcome == Failed(InventoryFull) <==> ClientError(x) && x.code == Some(InventoryFullCode))
    && (outcome == Failed(InsufficientResource) <==> ClientError(x) && x.code == Some(InsufficientResourceCode))
    && (outcome == Failed(RateLimited) <==>
          ClientError(x) && x.status == 429 && x.code != Some(InventoryFullCode)
          && x.code != Some(InsufficientResourceCode))
  }

  lemma ResultMeans(x: Exchange)
    ensures Means(x, MutationResult(x), Ambiguous)
    ensures Means(x, if x.NoAnswer? then Failed(Unavailable) else Interpret(x), Unavailable)
  {}

  /** The exchanges of one attempt and its outcome: a mutation is sent once; a read at most three times, and again only
      after a transport failure. */
  predicate OneAttempt(sent: seq<Exchange>, mutation: bool, outcome: Outcome)
  {
    if mutation then |sent| == 1 && outcome == MutationResult(sent[0])
    else
      && 1 <= |sent| <= 3 && (forall i | 0 <= i < |sent| - 1 :: sent[i].NoAnswer?)
      && (if sent[|sent|-1].NoAnswer? then |sent| == 3 && outcome == Failed(Unavailable)
          else outcome == Interpret(sent[|sent|-1]))
  }

  /** The game refused the exchange with 426 and named a version that is news. */
  predicate NamesNews(x: Exchange, version: string)
  {
    x.Answered? && x.status == 426 && Required(x).Some? && Required(x).value != version
  }

  // ---- the version is shared: while an exchange is under way, another account may adopt one ----

  /** What is left of `value` once another account has adopted `candidate`, if that is a version at all. */
  function Adopted(value: string, candidate: Option<string>): string
  {
    if candidate.Some? && IsVersion(candidate.value) then candidate.value else value
  }

  /** The version after the exchanges with the numbers from `m` up to, but not including, `n`. */
  function Shared(value: string, others: nat -> Option<string>, m: nat, n: nat): string
    requires m <= n
    decreases n
  {
    if m == n then value else Adopted(Shared(value, others, m, n - 1), others(n - 1))
  }

  /** The attempt that took the log of exchanges from `before` to `log`. */
  predicate AttemptMade(before: seq<Exchange>, log: seq<Exchange>, mutation: bool, outcome: Outcome)
  {
    before < log && OneAttempt(log[|before|..], mutation, outcome)
  }

  /** The outcome names a version that is news. */
  predicate TellsNews(outcome: Outcome, version: string)
  {
    && outcome.Failed? && outcome.failure.ClientVersionRejected? && outcome.failure.required.Some?
    && IsVersion(outcome.failure.required.value) && outcome.failure.required.value != version
  }

  /** The first attempt of a request that made two: the game named a version that was news then. */
  predicate FirstOfTwo(before: seq<Exchange>, middle: seq<Exchange>, mutation: bool, others: nat -> Option<string>,
                       was: string, named: string)
  {
    && AttemptMade(before, middle, mutation, Failed(ClientVersionRejected(Some(named))))
    && IsVersion(named) && named != Shared(was, others, |before|, |middle|)
  }

  /** The request that took the log from `before` to `log` and the version from `was` to `version`: one attempt, or a
      second one, with the version that the game had named, after the first was refused with one that was news. */
  ghost predicate OneRequest(before: seq<Exchange>, log: seq<Exchange>, mutation: bool, outcome: Outcome,
                             others: nat -> Option<string>, was: string, version: string)
  {
    || (&& AttemptMade(before, log, mutation, outcome) && version == Shared(was, others, |before|, |log|)
        && !TellsNews(outcome, version))
    || (exists middle, named :: FirstOfTwo(before, middle, mutation, others, was, named)
                                && AttemptMade(middle, log, mutation, outcome)
                                && version == Shared(named, others, |middle|, |log|))
  }

  /** Such an outcome comes from a last exchange that was refused with 426. */
  lemma NamedByLast(sent: seq<Exchange>, mutation: bool, named: string)
    requires OneAttempt(sent, mutation, Failed(ClientVersionRejected(Some(named))))
    ensures Refused(sent[|sent|-1]) && Required(sent[|sent|-1]) == Some(named) && IsVersion(named)
  {}

  class Wire {
    const replies: nat -> Exchange         // whatever the server answers, exchange by exchange
    const others: nat -> Option<string>    // what another account adopts in the meantime, exchange by exchange
    var log: seq<Exchange>

    constructor (replies: nat -> Exchange, others: nat -> Option<string>)
      ensures this.replies == replies && this.others == others && log == []
    {
      this.replies, this.others, log := replies, others, [];
    }

    method Send() returns (x: Exchange)
      modifies this
      ensures x == replies(|old(log)|) && log == old(log) + [x]
    {
      x := replies(|log|);
      log := log + [x];
    }
  }

  class GameClientVersion {
    var value: string

    constructor (seed: string)
      requires IsVersion(seed)
      ensures value == seed
    {
      value := seed;
    }

    /** A version that is none is refused; the value stays a version if it was one. */
    method Adopt(candidate: string) returns (news: bool)
      modifies this
      ensures news == (IsVersion(candidate) && candidate != old(value))
      ensures value == if news then candidate else old(value)
      ensures IsVersion(old(value)) ==> IsVersion(value)
    {
      if !IsVersion(candidate) { return false; }
      if candidate == value { return false; }
      value := candidate;
      return true;
    }
  }

  class HttpGameClient {
    const wire: Wire
    const version: GameClientVersion

    constructor (wire: Wire, version: GameClientVersion)
      ensures this.wire == wire && this.version == version
    {
      this.wire, this.version := wire, version;
    }

    /** One exchange; until its answer is there, the version is open to the other accounts. */
    method SendOnce() returns (x: Exchange)
      modifies wire, version
      ensures x == wire.replies(|old(wire.log)|) && wire.log == old(wire.log) + [x]
      ensures version.value == Adopted(old(version.value), wire.others(|old(wire.log)|))
    {
      var number := |wire.log|;
      x := wire.Send();
      if wire.others(number).Some? {
        var news := version.Adopt(wire.others(number).value);
      }
    }

    method Attempt(mutation: bool) returns (outcome: Outcome)
      modifies wire, version
      ensures old(wire.log) < wire.log
      ensures version.value == Shared(old(version.value), wire.others, |old(wire.log)|, |wire.log|)
      ensures AttemptMade(old(wire.log), wire.log, mutation, outcome)
    {
      var attempts := if mutation then 1 else 3;
      var attempt := 0;
      ghost var before := wire.log;
      while true
        invariant 0 <= attempt < attempts && (mutation ==> attempt == 0)
        invariant |wire.log| == |before| + attempt && before <= wire.log
        invariant forall i | |before| <= i < |wire.log| :: wire.log[i].NoAnswer?
        invariant version.value == Shared(old(version.value), wire.others, |before|, |wire.log|)
        decreases attempts - attempt
      {
        var result := SendOnce();
        if result.NoAnswer? {
          if mutation { return Failed(Ambiguous); }
          if attempt == attempts - 1 { return Failed(Unavailable); }
          attempt := attempt + 1;
          continue;
        }
        outcome := Interpret(result);
        if outcome == Failed(Unavailable) {
          if mutation { return Failed(Ambiguous); }
        }
        return outcome;
      }
    }

    /** A request is attempted a second time only after the game refused it with 426 and named a version that is
        news. */
    method RequestOutcome(mutation: bool) returns (outcome: Outcome)
      modifies wire, version
      ensures OneRequest(old(wire.log), wire.log, mutation, outcome, wire.others, old(version.value), version.value)
    {
      ghost var before, was := wire.log, version.value;
      outcome := Attempt(mutation);
      if outcome.Failed? && outcome.failure.ClientVersionRejected? && outcome.failure.required.Some? {
        ghost var middle, named := wire.log, outcome.failure.required.value;
        var news := version.Adopt(outcome.failure.required.value);
        if news {
          assert FirstOfTwo(before, middle, mutation, wire.others, was, named);
          outcome := Attempt(mutation);
        }
      }
    }
  }

  /** For a mutation: every exchange but the last was refused, at most two were made, and the last one decides. The
      first of two named a version that the client did not have then, whatever the other accounts did. */
  lemma MutationsAreRefusedFirst(before: seq<Exchange>, log: seq<Exchange>, outcome: Outcome,
                                 others: nat -> Option<string>, was: string, version: string)
    requires OneRequest(before, log, true, outcome, others, was, version)
    ensures before < log && |log| <= |before| + 2 && outcome == MutationResult(log[|log|-1])
    ensures forall i | |before| <= i < |log| - 1 :: Refused(log[i])
    ensures |log| == |before| + 2 ==> NamesNews(log[|before|], Adopted(was, others(|before|)))
  {
    if AttemptMade(before, log, true, outcome) {
      MutationIsOneExchange(before, log, outcome);
    } else {
      var middle, named :| FirstOfTwo(before, middle, true, others, was, named)
                           && AttemptMade(middle, log, true, outcome);
      MutationIsOneExchange(before, middle, Failed(ClientVersionRejected(Some(named))));
      MutationIsOneExchange(middle, log, outcome);
      NamedByLast(middle[|before|..], true, named);
      assert Shared(was, others, |before|, |before| + 1) == Adopted(was, others(|before|));
    }
  }

  lemma MutationIsOneExchange(before: seq<Exchange>, log: seq<Exchange>, outcome: Outcome)
    requires AttemptMade(before, log, true, outcome)
    ensures |log| == |before| + 1 && log[|before|..] == [log[|before|]] && outcome == MutationResult(log[|before|])
  {
    assert |log[|before|..]| == 1;
  }

  /** What the outcome says of the last exchange: a mutation of which nobody knows whether it was done is ambiguous. */
  lemma MutationsSayWhatWasDone(before: seq<Exchange>, log: seq<Exchange>, outcome: Outcome,
                                others: nat -> Option<string>, was: string, version: string)
    requires OneRequest(before, log, true, outcome, others, was, version)
    ensures before < log && Means(log[|log|-1], outcome, Ambiguous)
  {
    MutationsAreRefusedFirst(before, log, outcome, others, was, version);
    ResultMeans(log[|log|-1]);
  }

  lemma ReadsSayWhatCame(before: seq<Exchange>, log: seq<Exchange>, outcome: Outcome, others: nat -> Option<string>,
                         was: string, version: string)
    requires OneRequest(before, log, false, outcome, others, was, version)
    ensures before < log && Means(log[|log|-1], outcome, Unavailable)
  {
    ReadsEndWithTheirAnswer(before, log, outcome, others, was, version);
    ResultMeans(log[|log|-1]);
  }

  /** For a read: at most six exchanges, and the answer that decides is the last. */
  lemma ReadsEndWithTheirAnswer(before: seq<Exchange>, log: seq<Exchange>, outcome: Outcome,
                                others: nat -> Option<string>, was: string, version: string)
    requires OneRequest(before, log, false, outcome, others, was, version)
    ensures before < log && |log| <= |before| + 6
    ensures outcome == if log[|log|-1].NoAnswer? then Failed(Unavailable) else Interpret(log[|log|-1])
    ensures outcome == Succeeded ==> Ok(log[|log|-1])
  {
    if AttemptMade(before, log, false, outcome) {
      ReadIsThreeExchanges(before, log, outcome);
    } else {
      var middle, named :| FirstOfTwo(before, middle, false, others, was, named)
                           && AttemptMade(middle, log, false, outcome);
      ReadIsThreeExchanges(before, middle, Failed(ClientVersionRejected(Some(named))));
      ReadIsThreeExchanges(middle, log, outcome);
    }
  }

  lemma ReadIsThreeExchanges(before: seq<Exchange>, log: seq<Exchange>, outcome: Outcome)
    requires AttemptMade(before, log, false, outcome)
    ensures |before| < |log| <= |before| + 3
    ensures outcome == if log[|log|-1].NoAnswer? then Failed(Unavailable) else Interpret(log[|log|-1])
  {
    assert log[|log|-1] == log[|before|..][|log|-|before|-1];
  }
}
