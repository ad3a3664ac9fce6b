/**
 The verdict on an HTTP response: status, header, body, version and TLS checks, and the readers
 (size limit and byte counter) through which the body checks share one body.
 */
module HttpVerdict {
  import opened Wrappers

  const MAX_INT64 := 0x7fff_ffff_ffff_ffff

  type Int64 = n: int | -0x8000_0000_0000_0000 <= n <= MAX_INT64

  /** The configured body_size_limit after unmarshalling. */
  function NormaliseLimit(n: Int64): (limit: Int64)
    ensures 0 <= limit < MAX_INT64
    ensures 0 <= n < MAX_INT64 ==> limit == n
    ensures n < 0 || n == MAX_INT64 ==> limit + 1 == MAX_INT64
  {
    if n < 0 || n == MAX_INT64 then MAX_INT64 - 1 else n
  }

  /** What the body delivers before its end; a limit of 0 means none. */
  function Visible(content: Bytes, limit: Int64): Bytes {
    if 0 < limit < |content| then content[..limit] else content
  }

  /** The readers around a response body. `fails`: reading ends in an error instead of the end of file. */
  class BodyReader {
    const content: Bytes
    const fails: bool
    const limit: Int64
    var pos: nat
    var allowance: Int64
    /** The sticky result of the limiting reader: None while reading, Some(failed) at the end. */
    var ended: Option<bool>
    var counted: nat

    ghost predicate Valid()
      reads this
    {
      && 0 <= limit < MAX_INT64 && counted <= pos <= |content|
      && (ended.None? ==> counted == pos && (0 < limit ==> pos <= limit && allowance == limit - pos))
      && (ended.Some? ==> counted == |Visible(content, limit)| && ended.value == !Clean())
    }

    predicate Clean() { !fails && (limit == 0 || |content| <= limit) }

    constructor (content: Bytes, fails: bool, limit: Int64)
      requires 0 <= limit < MAX_INT64
      ensures Valid() && counted == 0 && this.content == content && this.fails == fails && this.limit == limit
    {
      this.content, this.fails, this.limit := content, fails, limit;
      pos, allowance, ended, counted := 0, limit, None, 0;
    }

    /** One read into `size` bytes, of which the source fills as many as it likes, but at least one. */
    method Read(size: Int64) returns (data: Bytes)
      requires Valid() && 0 < size
      modifies this`pos, this`allowance, this`ended, this`counted
      ensures Valid() && counted == old(counted) + |data|
      ensures data == content[old(counted)..counted] && counted <= |Visible(content, limit)|
      ensures old(ended).Some? ==> ended == old(ended)
      ensures ended.None? ==> |data| > 0
    {
      if ended.Some? {
        return [];
      }
      var room := size;
      if 0 < limit && allowance < size - 1 {
        room := allowance + 1;
      }
      if pos == |content| {
        ended := Some(fails);
        return [];
      }
      var n: nat :| 1 <= n <= room && n <= |content| - pos;
      data := content[pos..pos + n];
      pos := pos + n;
      if 0 < limit {
        if n <= allowance {
          allowance := allowance - n;
        } else {
          data := data[..allowance];
          allowance := 0;
          ended := Some(true);
        }
      }
      counted := counted + |data|;
    }

    /** Read to the end. Whatever was read before, all that is visible has then been counted. */
    method ReadAll() returns (data: Bytes, failed: bool)
      requires Valid()
      modifies this`pos, this`allowance, this`ended, this`counted
      ensures Valid() && ended.Some? && failed == !Clean()
      ensures data == Visible(content, limit)[old(counted)..] && counted == |Visible(content, limit)|
    {
      data := [];
      while ended.None?
        invariant Valid() && old(counted) <= counted <= |Visible(content, limit)|
        invariant data == content[old(counted)..counted]
        decreases |content| - counted, ended.None?
      {
        var more := Read(512);
        data := data + more;
      }
      failed := ended.value;
    }
  }

  // ----- header checks -----

  datatype HeaderMatch = HeaderMatch(header: string, matches: string -> bool, allowMissing: bool)

  type Header = map<string, seq<string>>

  function ValuesOf(h: Header, name: string, canonical: string -> string): seq<string> {
    if canonical(name) in h then h[canonical(name)] else []
  }

  /**
   A forbidding rule: no value matches. A demanding rule: some value matches. A missing header must be
   allowed to be missing.
   */
  predicate RulePasses(r: HeaderMatch, values: seq<string>, demands: bool) {
    if values == [] then r.allowMissing
    else demands == exists i :: 0 <= i < |values| && r.matches(values[i])
  }

  predicate HeadersPass(
    h: Header, forbidden: seq<HeaderMatch>, demanded: seq<HeaderMatch>, canonical: string -> string)
  {
    && (forall i :: 0 <= i < |forbidden| ==>
          RulePasses(forbidden[i], ValuesOf(h, forbidden[i].header, canonical), false))
    && (forall i :: 0 <= i < |demanded| ==>
          RulePasses(demanded[i], ValuesOf(h, demanded[i].header, canonical), true))
  }

  method AnyMatch(r: HeaderMatch, values: seq<string>) returns (any: bool)
    ensures any <==> exists i :: 0 <= i < |values| && r.matches(values[i])
  {
    for i := 0 to |values|
      invariant forall j :: 0 <= j < i ==> !r.matches(values[j])
    {
      if r.matches(values[i]) {
        return true;
      }
    }
    return false;
  }

  /** matchRegularExpressionsOnHeaders. */
  method CheckHeaders(
    h: Header, forbidden: seq<HeaderMatch>, demanded: seq<HeaderMatch>, canonical: string -> string)
    returns (ok: bool)
    ensures ok == HeadersPass(h, forbidden, demanded, canonical)
  {
    for i := 0 to |forbidden|
      invariant forall j :: 0 <= j < i ==> RulePasses(forbidden[j], ValuesOf(h, forbidden[j].header, canonical), false)
    {
      var key := canonical(forbidden[i].header);
      var values := if key in h then h[key] else [];
      if values == [] {
        if !forbidden[i].allowMissing {
          return false;
        }
        continue;
      }
      var any := AnyMatch(forbidden[i], values);
      if any {
        return false;
      }
    }
    for i := 0 to |demanded|
      invariant forall j :: 0 <= j < i ==> RulePasses(demanded[j], ValuesOf(h, demanded[j].header, canonical), true)
    {
      var key := canonical(demanded[i].header);
      var values := if key in h then h[key] else [];
      if values == [] {
        if !demanded[i].allowMissing {
          return false;
        }
        continue;
      }
      var any := AnyMatch(demanded[i], values);
      if !any {
        return false;
      }
    }
    return true;
  }

  // ----- body checks -----

  /** A parsed JSON value, by its text. */
  type Json = string

  datatype CelResult = CelError | NotBoolean | Boolean(value: bool)

  /** Regular expressions that must not and must match the body, and two CEL programs over it as JSON. */
  datatype BodyChecks = BodyChecks(
    forbidden: seq<Bytes -> bool>, demanded: seq<Bytes -> bool>,
    celForbidden: Option<Json -> CelResult>, celDemanded: Option<Json -> CelResult>,
    json: Bytes -> Option<Json>) {

    predicate HasRegexps() { forbidden != [] || demanded != [] }

    predicate HasCel() { celForbidden.Some? || celDemanded.Some? }

    predicate RegexpsPass(body: Bytes) {
      && (forall i :: 0 <= i < |forbidden| ==> !forbidden[i](body))
      && (forall i :: 0 <= i < |demanded| ==> demanded[i](body))
    }

    predicate CelPasses(body: Bytes) {
      && json(body).Some?
      && (celForbidden.Some? ==> celForbidden.value(json(body).value) == Boolean(false))
      && (celDemanded.Some? ==> celDemanded.value(json(body).value) == Boolean(true))
    }
  }

  /** matchRegularExpressions: reads the rest of the body, then checks it. */
  method MatchRegexps(r: BodyReader, c: BodyChecks) returns (ok: bool)
    requires r.Valid()
    modifies r
    ensures r.Valid() && r.counted == |Visible(r.content, r.limit)|
    ensures ok <==> r.Clean() && c.RegexpsPass(Visible(r.content, r.limit)[old(r.counted)..])
  {
    var body, failed := r.ReadAll();
    if failed {
      return false;
    }
    for i := 0 to |c.forbidden|
      invariant forall j :: 0 <= j < i ==> !c.forbidden[j](body)
    {
      if c.forbidden[i](body) {
        return false;
      }
    }
    for i := 0 to |c.demanded|
      invariant forall j :: 0 <= j < i ==> c.demanded[j](body)
    {
      if !c.demanded[i](body) {
        return false;
      }
    }
    return true;
  }

  /** matchCELExpressions: reads the rest of the body, parses it, then evaluates both programs. */
  method MatchCel(r: BodyReader, c: BodyChecks) returns (ok: bool)
    requires r.Valid()
    modifies r
    ensures r.Valid() && r.counted == |Visible(r.content, r.limit)|
    ensures ok <==> r.Clean() && c.CelPasses(Visible(r.content, r.limit)[old(r.counted)..])
  {
    var body, failed := r.ReadAll();
    if failed {
      return false;
    }
    var json := c.json(body);
    if json.None? {
      return false;
    }
    if c.celForbidden.Some? {
      var result := c.celForbidden.value(json.value);
      if !result.Boolean? || result.value {
        return false;
      }
    }
    if c.celDemanded.Some? {
      var result := c.celDemanded.value(json.value);
      if !result.Boolean? || !result.value {
        return false;
      }
    }
    return true;
  }

  // ----- the verdict -----

  datatype Rules = Rules(
    validStatus: seq<int>, forbiddenHeaders: seq<HeaderMatch>, demandedHeaders: seq<HeaderMatch>,
    body: BodyChecks, limit: Int64, versions: seq<string>, failIfSSL: bool, failIfNotSSL: bool)

  /**
   `errored`: the redirect in this response was not followed. `decodes`: no compression, or the decoder
   could be set up.
   */
  datatype Response = Response(
    status: int, header: Header, proto: string, tls: bool, errored: bool, decodes: bool, content: Bytes, fails: bool) {

    /** net/http has closed the body of an unfollowed redirect: reading it fails, unless there is none. */
    predicate BodyClosed() {
      errored && (fails || content == [])
    }
  }

  predicate StatusOk(rules: Rules, status: int) {
    if rules.validStatus == [] then 200 <= status < 300 else status in rules.validStatus
  }

  predicate TlsOk(rules: Rules, tls: bool) {
    if tls then !rules.failIfSSL else !rules.failIfNotSSL
  }

  /** All configured checks, each on the whole body, in no particular order. */
  predicate Passes(rules: Rules, r: Response, canonical: string -> string) {
    && StatusOk(rules, r.status)
    && HeadersPass(r.header, rules.forbiddenHeaders, rules.demandedHeaders, canonical)
    && r.decodes
    && (!r.errored || rules.body.HasRegexps() || rules.body.HasCel() ==> CompleteBody(r, rules.limit))
    && (rules.body.HasRegexps() ==> rules.body.RegexpsPass(r.content))
    && (rules.body.HasCel() ==> rules.body.CelPasses(r.content))
    && (rules.versions != [] ==> r.proto in rules.versions)
    && TlsOk(rules, r.tls)
  }

  predicate CompleteBody(r: Response, limit: Int64) {
    !r.fails && (limit == 0 || |r.content| <= limit)
  }

  method CheckStatus(rules: Rules, status: int) returns (ok: bool)
    ensures ok == StatusOk(rules, status)
  {
    if rules.validStatus == [] {
      return 200 <= status < 300;
    }
    for i := 0 to |rules.validStatus|
      invariant status !in rules.validStatus[..i]
    {
      if status == rules.validStatus[i] {
        return true;
      }
    }
    return false;
  }

  /** The body checks and the final drain: the verdict so far, and the bytes counted. */
  method CheckBody(rules: Rules, r: Response, before: bool) returns (success: bool, bytes: nat)
    requires 0 <= rules.limit < MAX_INT64
    requires rules.body.json([]).None?
    ensures success ==> before
    ensures bytes == if r.errored then 0 else |Visible(r.content, rules.limit)|
    ensures if rules.body.HasRegexps() && rules.body.HasCel() then !success
            else success <==>
                   && before
                   && (!r.errored || rules.body.HasRegexps() || rules.body.HasCel() ==> CompleteBody(r, rules.limit))
                   && (rules.body.HasRegexps() ==> rules.body.RegexpsPass(r.content))
                   && (rules.body.HasCel() ==> rules.body.CelPasses(r.content))
  {
    success, bytes := before, 0;
    var reader := new BodyReader(r.content, r.fails, rules.limit);
    assert reader.Clean() ==> Visible(r.content, rules.limit)[0..] == r.content;
    if success && rules.body.HasRegexps() {
      success := MatchRegexps(reader, rules.body);
    }
    assert success && rules.body.HasRegexps() ==> Visible(r.content, rules.limit)[reader.counted..] == [];
    if success && rules.body.HasCel() {
      success := MatchCel(reader, rules.body);
    }
    if !r.errored {
      var _, failed := reader.ReadAll();
      if failed {
        success := false;
      }
      bytes := reader.counted;
    }
  }

  /**
   The verdict of ProbeHTTP. With at most one kind of body check it is the conjunction of all
   configured checks on the whole body; with both kinds the second finds the body drained, and the
   probe never succeeds. On an unfollowed redirect a body check succeeds only if there is no body at
   all, and a CEL check never. The counted bytes do not depend on which checks read them.
   */
  method Judge(rules: Rules, resp: Option<Response>, canonical: string -> string) returns (success: bool, bytes: nat)
    requires 0 <= rules.limit < MAX_INT64
    requires rules.body.json([]).None?
    ensures resp.None? ==> !success
    ensures resp.Some? && !(rules.body.HasRegexps() && rules.body.HasCel()) ==>
              success == Passes(rules, resp.value, canonical)
    ensures rules.body.HasRegexps() && rules.body.HasCel() ==> !success
    ensures success && resp.value.BodyClosed() ==>
              !rules.body.HasCel() && (rules.body.HasRegexps() ==> !resp.value.fails && rules.body.RegexpsPass([]))
    ensures bytes == if resp.None? || resp.value.errored then 0 else |Visible(resp.value.content, rules.limit)|
  {
    if resp.None? {
      return false, 0;
    }
    var r := resp.value;
    success := CheckStatus(rules, r.status);
    if success && (rules.forbiddenHeaders != [] || rules.demandedHeaders != []) {
      success := CheckHeaders(r.header, rules.forbiddenHeaders, rules.demandedHeaders, canonical);
    }
    if !r.decodes {
      success := false;
    }
    success, bytes := CheckBody(rules, r, success);
    if rules.versions != [] && r.proto !in rules.versions {
      success := false;
    }
    if r.tls {
      if rules.failIfSSL {
        success := false;
      }
    } else if rules.failIfNotSSL && success {
      success := false;
    }
  }
}
