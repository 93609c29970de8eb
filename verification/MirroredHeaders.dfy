/**
 Header validation of modern HTTP requests and the type checks of header_echo:
 together they make the mirrored headers determine the call's arguments.
 */
module MirroredHeaders {
  import opened Wrappers
  import Decimal

  datatype HeaderError =
    | BadAccept | MissingVersion | VersionMismatch | MissingMethod | MethodMismatch
    | MissingName | NameMismatch | InvalidBase64 | MalformedSentinel | UnsafePlainValue
    | MustBeOmitted(param: nat) | MissingParam(param: nat) | UnsupportedType(param: nat) | ParamMismatch(param: nat)

  datatype Result<+T> = Ok(value: T) | Err(error: HeaderError)

  // ---------------------------------------------------------------- decoding

  const SENTINEL_OPEN := "=?base64?"
  const SENTINEL_CLOSE := "?="

  /** Strict Base64 and UTF-8 decoding, as one oracle. */
  type Base64 = string -> Option<string>

  predicate Opens(v: string) {
    SENTINEL_OPEN <= v
  }

  predicate Closes(v: string) {
    |v| >= 2 && v[|v| - 2..] == SENTINEL_CLOSE
  }

  predicate IsSpace(c: char) {
    c == ' ' || '\t' <= c <= '\r' || '\U{1C}' <= c <= '\U{1F}'
  }

  /** Printable ASCII and tabs, with no space at either end. */
  predicate PlainSafe(v: string) {
    && (v != "" ==> !IsSpace(v[0]) && !IsSpace(v[|v| - 1]))
    && forall i :: 0 <= i < |v| ==> v[i] == '\t' || ' ' <= v[i] <= '~'
  }

  /** `_decode_mirrored_header`. */
  function Decode(b64: Base64, v: string): Result<string> {
    if Opens(v) && Closes(v) then
      var encoded := if |v| >= 11 then v[9..|v| - 2] else "";
      if b64(encoded).Some? then Ok(b64(encoded).value) else Err(InvalidBase64)
    else if Opens(v) || Closes(v) then Err(MalformedSentinel)
    else if !PlainSafe(v) then Err(UnsafePlainValue)
    else Ok(v)
  }

  /** Every text can be mirrored: wrapping any Base64 form of it decodes to it. */
  lemma WrappedTextDecodes(b64: Base64, encoded: string, text: string)
    requires b64(encoded) == Some(text)
    ensures Decode(b64, SENTINEL_OPEN + encoded + SENTINEL_CLOSE) == Ok(text)
  {
    var v := SENTINEL_OPEN + encoded + SENTINEL_CLOSE;
    assert |SENTINEL_OPEN| == 9 && |SENTINEL_CLOSE| == 2;
    assert v[|v| - 2..] == SENTINEL_CLOSE && v[9..|v| - 2] == encoded;
  }

  // ---------------------------------------------------------------- requests

  /** An argument as JSON gives it; null counts as absent. */
  datatype Arg = Absent | Bool(flag: bool) | Int(n: int) | Text(text: string) | OtherJson

  /** Absent or null, text, or some other JSON value. */
  datatype NameField = NoName | NameText(text: string) | NameOther

  /** `verb` is None when the method is not text; `params` of the wrong shape is None. */
  datatype Request = Request(verb: Option<string>, params: Option<Params>)

  datatype Params = Params(metaVersion: Option<string>, name: NameField, uri: NameField, arguments: Option<seq<Arg>>)

  /** The headers looked at; `params` holds region, attempt, enabled, greeting. */
  datatype Headers = Headers(acceptOk: bool, version: Option<string>, verb: Option<string>, name: Option<string>,
                             params: seq<Option<string>>)

  const PARAM_COUNT := 4
  const TOOLS_CALL := "tools/call"
  const PROMPTS_GET := "prompts/get"
  const RESOURCES_READ := "resources/read"
  const HEADER_ECHO := "header_echo"

  /** The text a header must carry for an argument. */
  function Expected(a: Arg): Option<string> {
    match a
    case Bool(b) => Some(if b then "true" else "false")
    case Int(n) => Some(Decimal.IntText(n))
    case Text(s) => Some(s)
    case _ => None
  }

  function CheckParam(b64: Base64, a: Arg, header: Option<string>, k: nat): Option<HeaderError> {
    if a.Absent? then (if header.Some? then Some(MustBeOmitted(k)) else None)
    else if header.None? then Some(MissingParam(k))
    else if Decode(b64, header.value).Err? then Some(Decode(b64, header.value).error)
    else if Expected(a).None? then Some(UnsupportedType(k))
    else if Decode(b64, header.value).value != Expected(a).value then Some(ParamMismatch(k))
    else None
  }

  /** The first problem among the first `n` mirrored parameters. */
  function CheckParams(b64: Base64, args: seq<Arg>, headers: seq<Option<string>>, n: nat): Option<HeaderError>
    requires n <= |args| && n <= |headers|
  {
    if n == 0 then None
    else if CheckParams(b64, args, headers, n - 1).Some? then CheckParams(b64, args, headers, n - 1)
    else CheckParam(b64, args[n - 1], headers[n - 1], n - 1)
  }

  function NameSource(verb: string, p: Params): NameField {
    if verb == TOOLS_CALL || verb == PROMPTS_GET then p.name
    else if verb == RESOURCES_READ then p.uri
    else NoName
  }

  function CheckName(b64: Base64, source: NameField, header: Option<string>): Option<HeaderError> {
    if source.NoName? then None
    else if header.None? then Some(MissingName)
    else if source.NameOther? then Some(NameMismatch)
    else if Decode(b64, header.value).Err? then Some(Decode(b64, header.value).error)
    else if Decode(b64, header.value).value != source.text then Some(NameMismatch)
    else None
  }

  predicate WellShaped(r: Request, h: Headers) {
    |h.params| == PARAM_COUNT
      && (r.params.Some? && r.params.value.arguments.Some? ==> |r.params.value.arguments.value| == PARAM_COUNT)
  }

  /** `validate_modern_http_headers`: the error it raises, if any. */
  function Validate(b64: Base64, r: Request, h: Headers): Option<HeaderError>
    requires WellShaped(r, h)
  {
    if !h.acceptOk then Some(BadAccept)
    else if r.verb.None? || r.params.None? then None
    else
      var verb, p := r.verb.value, r.params.value;
      if h.version.None? then Some(MissingVersion)
      else if p.metaVersion.Some? && p.metaVersion != h.version then Some(VersionMismatch)
      else if h.verb.None? then Some(MissingMethod)
      else if h.verb.value != verb then Some(MethodMismatch)
      else if CheckName(b64, NameSource(verb, p), h.name).Some? then CheckName(b64, NameSource(verb, p), h.name)
      else if verb != TOOLS_CALL || p.name != NameText(HEADER_ECHO) || p.arguments.None? then None
      else CheckParams(b64, p.arguments.value, h.params, PARAM_COUNT)
  }

  method ValidateParams(b64: Base64, args: seq<Arg>, headers: seq<Option<string>>)
    returns (problem: Option<HeaderError>)
    requires |args| == |headers|
    ensures problem == CheckParams(b64, args, headers, |args|)
  {
    for k := 0 to |args|
      invariant CheckParams(b64, args, headers, k).None?
    {
      problem := CheckParam(b64, args[k], headers[k], k);
      if problem.Some? {
        ProblemStays(b64, args, headers, k + 1, |args|);
        return;
      }
    }
    problem := None;
  }

  lemma {:induction false} ProblemStays(b64: Base64, args: seq<Arg>, headers: seq<Option<string>>, j: nat, n: nat)
    requires j <= n <= |args| == |headers| && CheckParams(b64, args, headers, j).Some?
    ensures CheckParams(b64, args, headers, n) == CheckParams(b64, args, headers, j)
  {
    if j < n {
      ProblemStays(b64, args, headers, j, n - 1);
    }
  }

  // ---------------------------------------------------------------- the echo tool

  const MAX_SAFE := 9_007_199_254_740_991

  /** header_echo's type checks on region, attempt, enabled and greeting. */
  predicate EchoAccepts(args: seq<Arg>) {
    && |args| == PARAM_COUNT
    && args[0].Text? && args[1].Int? && args[2].Bool? && args[3].Text?
    && -MAX_SAFE <= args[1].n <= MAX_SAFE
  }

  /** The call is header_echo and carries these arguments. */
  predicate Calls(r: Request, args: seq<Arg>) {
    && r.verb == Some(TOOLS_CALL) && r.params.Some?
    && r.params.value.name == NameText(HEADER_ECHO) && r.params.value.arguments == Some(args)
  }

  lemma {:induction false} CheckedParams(b64: Base64, args: seq<Arg>, headers: seq<Option<string>>, n: nat)
    requires n <= |args| && n <= |headers| && CheckParams(b64, args, headers, n).None?
    ensures forall k :: 0 <= k < n ==> CheckParam(b64, args[k], headers[k], k).None?
  {
    if n > 0 {
      CheckedParams(b64, args, headers, n - 1);
    }
  }

  lemma ExpectedInjective(a: Arg, b: Arg)
    requires Expected(a).Some? && Expected(a) == Expected(b)
    requires (a.Text? && b.Text?) || (a.Int? && b.Int?) || (a.Bool? && b.Bool?)
    ensures a == b
  {
    if a.Int? {
      Decimal.IntTextInjective(a.n, b.n);
    } else if a.Bool? {
      assert |"true"| == 4 && |"false"| == 5;
    }
  }

  /** Two accepted echo calls with the same mirrored headers carry the same arguments. */
  lemma HeadersDetermineCall(b64: Base64, r1: Request, h1: Headers, args1: seq<Arg>, r2: Request, h2: Headers,
                             args2: seq<Arg>)
    requires Calls(r1, args1) && Calls(r2, args2) && EchoAccepts(args1) && EchoAccepts(args2)
    requires WellShaped(r1, h1) && WellShaped(r2, h2) && h1.params == h2.params
    requires Validate(b64, r1, h1).None? && Validate(b64, r2, h2).None?
    ensures args1 == args2
  {
    ValidatedParams(b64, r1, h1, args1);
    ValidatedParams(b64, r2, h2, args2);
    ParamsDetermine(b64, h1.params, args1, args2);
  }

  lemma ValidatedParams(b64: Base64, r: Request, h: Headers, args: seq<Arg>)
    requires Calls(r, args) && WellShaped(r, h) && Validate(b64, r, h).None?
    ensures CheckParams(b64, args, h.params, PARAM_COUNT).None?
  {
  }

  lemma ParamsDetermine(b64: Base64, headers: seq<Option<string>>, args1: seq<Arg>, args2: seq<Arg>)
    requires EchoAccepts(args1) && EchoAccepts(args2) && |headers| == PARAM_COUNT
    requires CheckParams(b64, args1, headers, PARAM_COUNT).None? && CheckParams(b64, args2, headers, PARAM_COUNT).None?
    ensures args1 == args2
  {
    CheckedParams(b64, args1, headers, PARAM_COUNT);
    CheckedParams(b64, args2, headers, PARAM_COUNT);
    forall k | 0 <= k < PARAM_COUNT
      ensures args1[k] == args2[k]
    {
      SameHeaderSameArg(b64, headers[k], args1[k], args2[k], k);
    }
  }

  lemma SameHeaderSameArg(b64: Base64, header: Option<string>, a: Arg, b: Arg, k: nat)
    requires CheckParam(b64, a, header, k).None? && CheckParam(b64, b, header, k).None?
    requires (a.Text? && b.Text?) || (a.Int? && b.Int?) || (a.Bool? && b.Bool?)
    ensures a == b
  {
    ExpectedInjective(a, b);
  }

  /** Every acceptable echo call has headers that validate: the Base64 form of each expected text will do. */
  lemma EveryCallCanBeMirrored(b64: Base64, encode: string -> string, r: Request, args: seq<Arg>, h: Headers)
    requires forall s :: b64(encode(s)) == Some(s)
    requires Calls(r, args) && EchoAccepts(args) && WellShaped(r, h) && h.acceptOk && h.version.Some?
            && h.verb == r.verb
    requires r.params.value.metaVersion.Some? ==> r.params.value.metaVersion == h.version
    requires h.name == Some(SENTINEL_OPEN + encode(HEADER_ECHO) + SENTINEL_CLOSE)
    requires forall k :: 0 <= k < PARAM_COUNT ==>
            h.params[k] == Some(SENTINEL_OPEN + encode(Expected(args[k]).value) + SENTINEL_CLOSE)
    ensures Validate(b64, r, h).None?
  {
    WrappedTextDecodes(b64, encode(HEADER_ECHO), HEADER_ECHO);
    assert CheckName(b64, NameSource(TOOLS_CALL, r.params.value), h.name).None?;
    MirroredParams(b64, encode, args, h.params, PARAM_COUNT);
  }

  lemma {:induction false} MirroredParams(b64: Base64, encode: string -> string, args: seq<Arg>,
                                          headers: seq<Option<string>>, n: nat)
    requires n <= |args| && n <= |headers| && forall s :: b64(encode(s)) == Some(s)
    requires forall k :: 0 <= k < n ==>
            Expected(args[k]).Some?
              && headers[k] == Some(SENTINEL_OPEN + encode(Expected(args[k]).value) + SENTINEL_CLOSE)
    ensures CheckParams(b64, args, headers, n).None?
  {
    if n > 0 {
      MirroredParams(b64, encode, args, headers, n - 1);
      WrappedTextDecodes(b64, encode(Expected(args[n - 1]).value), Expected(args[n - 1]).value);
    }
  }
}
