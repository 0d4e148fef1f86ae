/** The start-page credential gate of `app.py`.

The page reads `cred.json`, parses its `generated_at` timestamp, and stops
at the first of four checks that fails: no cached token cache, a missing or
unparsable timestamp, a credential 80 days old or older, and finally a
failed silent token acquisition. Only when all pass is the user told the
token is ready.

Time is an integer count of seconds since the epoch; the ISO-8601 parser
(`datetime.fromisoformat`) is the abstract partial function `iso`, which
tells an offset-carrying (aware) result from a naive one. The silent login
outcome and the session's token are parameters.
 */
module Credential {
  import opened Wrappers
  import Text

  /** Days after generation at which a cached credential counts as stale. */
  const StaleDays: int := 80
  const SecondsPerDay: int := 86400

  /** A JSON value as far as the gate looks at it: a string, or any other
  value together with its Python truthiness (`null`, `0`, `[]`, `{}`
  and `false` are falsy). */
  datatype JsonValue = JStr(s: string) | JOther(truthy: bool)

  /** What opening `cred.json` and `json.load` produce. */
  datatype CredFile =
    | Absent                                  // the file does not exist
    | Unreadable                              // reading or decoding raised
    | NotAnObject                             // valid JSON whose top level is not an object
    | Object(fields: map<string, JsonValue>)

  /** Python truthiness of a looked-up value; `None` stands for Python's `None`. */
  predicate Truthy(v: Option<JsonValue>) {
    match v
    case None => false
    case Some(JStr(s)) => s != ""
    case Some(JOther(t)) => t
  }

  /** `_read_cred`: the cache and the timestamp entries, or `(None, None)`
  whenever the file is missing or cannot be read as an object. */
  function ReadCred(f: CredFile): (entries: (Option<JsonValue>, Option<JsonValue>))
    ensures !f.Object? ==> entries == (None, None)
    ensures f.Object? && "encoded_token_cache" in f.fields ==> entries.0 == Some(f.fields["encoded_token_cache"])
    ensures f.Object? && "generated_at" in f.fields ==> entries.1 == Some(f.fields["generated_at"])
    ensures f.Object? && "encoded_token_cache" !in f.fields ==> entries.0 == None
    ensures f.Object? && "generated_at" !in f.fields ==> entries.1 == None
  {
    match f
    case Object(fields) =>
      (if "encoded_token_cache" in fields then Some(fields["encoded_token_cache"]) else None,
       if "generated_at" in fields then Some(fields["generated_at"]) else None)
    case _ => (None, None)
  }

  /** A parsed timestamp: with a UTC offset (seconds since the epoch) or
  naive (wall-clock seconds, no offset). */
  datatype Stamp = Aware(epoch: int) | Naive(wall: int)

  /** The text handed to the ISO parser: every "Z" becomes "+00:00". */
  function UtcSuffixRewrite(s: string): (t: string)
    ensures 'Z' !in t
    ensures 'Z' !in s ==> t == s
  {
    Text.Replace(s, 'Z', "+00:00")
  }

  /** A "Z" standing between text without "Z", as in a UTC timestamp
`2025-01-01T00:00:00Z`, is rewritten to the "+00:00" offset and nothing
else changes. */
  lemma {:induction false} ZuluBecomesOffset(a: string, b: string)
    requires 'Z' !in a && 'Z' !in b
    ensures UtcSuffixRewrite(a + "Z" + b) == a + "+00:00" + b
  {
    Text.ReplaceAppend(a + "Z", b, 'Z', "+00:00");
    Text.ReplaceAppend(a, "Z", 'Z', "+00:00");
  }

  /** `_parse_iso`: falsy input gives `None`; a non-string raises inside the
  `try` and gives `None`; a string is parsed after the "Z" rewrite. */
  function ParseIso(v: Option<JsonValue>, iso: string -> Option<Stamp>): (r: Option<Stamp>)
    ensures r.Some? ==> v.Some? && v.value.JStr? && v.value.s != ""
    ensures v.Some? && v.value.JStr? ==> r == iso(UtcSuffixRewrite(v.value.s)) || v.value.s == ""
  {
    if !Truthy(v) then None
    else
      match v.value
      case JStr(s) => iso(UtcSuffixRewrite(s))
      case JOther(_) => None
  }

  /** The parser is only ever shown texts without a "Z": two parsers that
  agree on such texts give the same result on every entry. */
  lemma ParserSeesNoZ(v: Option<JsonValue>, iso1: string -> Option<Stamp>, iso2: string -> Option<Stamp>)
    requires forall t :: 'Z' !in t ==> iso1(t) == iso2(t)
    ensures ParseIso(v, iso1) == ParseIso(v, iso2)
  {
    if Truthy(v) && v.value.JStr? {
      var t := UtcSuffixRewrite(v.value.s);
      assert 'Z' !in t;
    }
  }

  /** `generated_dt + timedelta(days=STALE_DAYS)`. */
  function ValidUntil(generated: int): int
  {
    generated + StaleDays * SecondsPerDay
  }

  datatype SignInReason =
    | NoCachedCredentials
    | TimestampInvalid
    | CredentialStale
    | SilentAcquisitionFailed

  /** The one message a run of the page ends with. */
  datatype Outcome =
    | SignIn(reason: SignInReason)
    | Ready(generated: int, validUntil: int)

  /** The checks that precede the silent acquisition, as written: `None`
  where the page raises. A naive timestamp parses, passes check 2, and
  then comparing it with the offset-aware `now` raises `TypeError`. */
  function PrecheckAsWritten(f: CredFile, iso: string -> Option<Stamp>, now: int): (r: Option<Option<SignInReason>>)
    ensures r == Some(None) ==>
              && ParseIso(ReadCred(f).1, iso).Some?
              && ParseIso(ReadCred(f).1, iso).value.Aware?
              && now < ValidUntil(ParseIso(ReadCred(f).1, iso).value.epoch)
  {
    var (cache, stamp) := ReadCred(f);
    var g := ParseIso(stamp, iso);
    if !Truthy(cache) then Some(Some(NoCachedCredentials))
    else if g.None? then Some(Some(TimestampInvalid))
    else
      match g.value
      case Naive(_) => None
      case Aware(t) => if now >= ValidUntil(t) then Some(Some(CredentialStale)) else Some(None)
  }

  /** With a cache and a timestamp without offset the page as written never
  reaches an outcome: for example `generated_at = "2025-01-01T00:00:00"`,
  which `fromisoformat` parses to a naive datetime. */
  lemma NaiveStampCrashes(f: CredFile, iso: string -> Option<Stamp>, now: int)
    requires Truthy(ReadCred(f).0)
    requires ParseIso(ReadCred(f).1, iso).Some? && ParseIso(ReadCred(f).1, iso).value.Naive?
    ensures PrecheckAsWritten(f, iso, now) == None
  {
  }

  /** The checks that precede the silent acquisition, with a naive timestamp
  treated like an unparsable one: `None` means the credential is fresh. */
  function Precheck(f: CredFile, iso: string -> Option<Stamp>, now: int): (r: Option<SignInReason>)
    ensures !Truthy(ReadCred(f).0) ==> r == Some(NoCachedCredentials)
    ensures r.None? <==>
              Truthy(ReadCred(f).0)
              && ParseIso(ReadCred(f).1, iso).Some?
              && ParseIso(ReadCred(f).1, iso).value.Aware?
              && now < ParseIso(ReadCred(f).1, iso).value.epoch + StaleDays * SecondsPerDay
  {
    var (cache, stamp) := ReadCred(f);
    var g := ParseIso(stamp, iso);
    if !Truthy(cache) then Some(NoCachedCredentials)
    else if g.None? || g.value.Naive? then Some(TimestampInvalid)
    else if now >= ValidUntil(g.value.epoch) then Some(CredentialStale)
    else None
  }

  /** The correction changes nothing but the naive case: wherever the page
  as written reaches an outcome, the corrected checks reach the same one. */
  lemma PrecheckAgrees(f: CredFile, iso: string -> Option<Stamp>, now: int)
    requires PrecheckAsWritten(f, iso, now).Some?
    ensures Precheck(f, iso, now) == PrecheckAsWritten(f, iso, now).value
  {
  }

  /** The whole page: the prechecks, then the silent acquisition. The
  "ready" outcome needs both a successful silent call and a token in the
  session. */
  function Gate(f: CredFile, iso: string -> Option<Stamp>, now: int, silentOk: bool, tokenInSession: bool): (r: Outcome)
    ensures Precheck(f, iso, now).Some? ==> r == SignIn(Precheck(f, iso, now).value)
    ensures r.Ready? <==> Precheck(f, iso, now).None? && silentOk && tokenInSession
    ensures Precheck(f, iso, now).None? && !(silentOk && tokenInSession) ==> r == SignIn(SilentAcquisitionFailed)
    ensures r.Ready? ==> r.generated == ParseIso(ReadCred(f).1, iso).value.epoch
    ensures r.Ready? ==> r.validUntil == r.generated + StaleDays * SecondsPerDay && now < r.validUntil
  {
    match Precheck(f, iso, now)
    case Some(reason) => SignIn(reason)
    case None =>
      var g := ParseIso(ReadCred(f).1, iso).value.epoch;
      if silentOk && tokenInSession then Ready(g, ValidUntil(g)) else SignIn(SilentAcquisitionFailed)
  }

  /** The whole page as written: `None` where it raises on a naive
  timestamp. */
  function GateAsWritten(f: CredFile, iso: string -> Option<Stamp>, now: int, silentOk: bool, tokenInSession: bool): Option<Outcome>
  {
    match PrecheckAsWritten(f, iso, now)
    case None => None
    case Some(Some(reason)) => Some(SignIn(reason))
    case Some(None) =>
      var g := ParseIso(ReadCred(f).1, iso).value.epoch;
      Some(if silentOk && tokenInSession then Ready(g, ValidUntil(g)) else SignIn(SilentAcquisitionFailed))
  }

  /** The corrected gate differs from the page as written only where the
  latter raises: every outcome the page reaches, the corrected gate
  reaches too, and the page raises exactly on a cached credential with a
  naive timestamp. */
  lemma GateAgrees(f: CredFile, iso: string -> Option<Stamp>, now: int, silentOk: bool, tokenInSession: bool)
    ensures GateAsWritten(f, iso, now, silentOk, tokenInSession).Some? ==>
              Gate(f, iso, now, silentOk, tokenInSession) == GateAsWritten(f, iso, now, silentOk, tokenInSession).value
    ensures GateAsWritten(f, iso, now, silentOk, tokenInSession).None? <==>
              Truthy(ReadCred(f).0) && ParseIso(ReadCred(f).1, iso).Some? && ParseIso(ReadCred(f).1, iso).value.Naive?
  {
    if PrecheckAsWritten(f, iso, now).Some? {
      PrecheckAgrees(f, iso, now);
    }
  }

  /** No cache file, an unreadable or non-object file, or a falsy
  `encoded_token_cache` always leads to sign-in, whatever the timestamp,
  the clock and the login outcome. */
  lemma {:induction false} MissingCacheForcesSignIn(f: CredFile, iso: string -> Option<Stamp>, now: int, silentOk: bool, tokenInSession: bool)
    requires !f.Object? || "encoded_token_cache" !in f.fields || !Truthy(Some(f.fields["encoded_token_cache"]))
    ensures Gate(f, iso, now, silentOk, tokenInSession) == SignIn(NoCachedCredentials)
  {
    assert !Truthy(ReadCred(f).0);
  }

  /** With a cache, a missing, empty, non-string or unparsable `generated_at`
  leads to sign-in for an invalid timestamp. */
  lemma BadTimestampForcesSignIn(f: CredFile, iso: string -> Option<Stamp>, now: int, silentOk: bool, tokenInSession: bool)
    requires Truthy(ReadCred(f).0)
    requires ParseIso(ReadCred(f).1, iso).None?
    ensures Gate(f, iso, now, silentOk, tokenInSession) == SignIn(TimestampInvalid)
  {
  }

  /** With a cache and an aware timestamp `g`, the credential is stale
  exactly when `now >= g + 80 days`; the boundary instant is stale. */
  lemma StaleExactlyAtThreshold(f: CredFile, iso: string -> Option<Stamp>, now: int, silentOk: bool, tokenInSession: bool, g: int)
    requires Truthy(ReadCred(f).0)
    requires ParseIso(ReadCred(f).1, iso) == Some(Aware(g))
    ensures Gate(f, iso, now, silentOk, tokenInSession) == SignIn(CredentialStale) <==> now >= g + 80 * 86400
    ensures now == ValidUntil(g) ==> Gate(f, iso, now, silentOk, tokenInSession) == SignIn(CredentialStale)
  {
  }

  /** The silent acquisition is consulted only when the prechecks pass:
  otherwise its outcome and the session's token cannot change the result. */
  lemma SilentOnlyWhenFresh(f: CredFile, iso: string -> Option<Stamp>, now: int, s1: bool, t1: bool, s2: bool, t2: bool)
    requires Precheck(f, iso, now).Some?
    ensures Gate(f, iso, now, s1, t1) == Gate(f, iso, now, s2, t2)
  {
  }
}
