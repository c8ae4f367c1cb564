/** The configuration-derived part of the backend's bootstrap: the list of
    allowed CORS origins and the choice between that list and "any origin". */
module Bootstrap {
  import opened Common
  import opened JsStrings

  /** `.map((origin) => origin.trim())` */
  function TrimAll(parts: seq<string>): (r: seq<string>)
    ensures |r| == |parts|
    ensures forall k :: 0 <= k < |parts| ==> r[k] == Trim(parts[k])
  {
    if parts == [] then [] else [Trim(parts[0])] + TrimAll(parts[1..])
  }

  /** `.filter(Boolean)` on strings: the empty string is the only falsy one. */
  function DropEmpty(parts: seq<string>): (r: seq<string>)
    ensures |r| <= |parts|
    ensures forall k :: 0 <= k < |r| ==> r[k] != ""
    ensures forall x :: x in r <==> x in parts && x != ""
  {
    if parts == [] then []
    else if parts[0] == "" then DropEmpty(parts[1..])
    else [parts[0]] + DropEmpty(parts[1..])
  }

  lemma {:induction false} TrimAllConcat(a: seq<string>, b: seq<string>)
    ensures TrimAll(a + b) == TrimAll(a) + TrimAll(b)
  {
  }

  lemma {:induction false} DropEmptyConcat(a: seq<string>, b: seq<string>)
    ensures DropEmpty(a + b) == DropEmpty(a) + DropEmpty(b)
  {
    if a != [] {
      assert (a + b)[1..] == a[1..] + b;
      DropEmptyConcat(a[1..], b);
    } else {
      assert a + b == b;
    }
  }

  /** The origins configured under `config.cors.origins` (absent means ""). */
  function CorsOrigins(config: Option<string>): (r: seq<string>)
    ensures forall k :: 0 <= k < |r| ==> r[k] != "" && IsTrimmed(r[k])
  {
    var trimmed := TrimAll(Split(config.GetOr(""), ','));
    assert forall x :: x in trimmed ==> IsTrimmed(x);
    DropEmpty(trimmed)
  }

  /** A missing or empty setting allows no origin. */
  lemma CorsOriginsOfNothing()
    ensures CorsOrigins(None) == []
    ensures CorsOrigins(Some("")) == []
  {
    assert Split("", ',') == [""];
    assert Trim("") == "";
  }

  /** One entry without a comma gives its trimmed self, or nothing when blank. */
  lemma CorsOriginsSingle(s: string)
    requires ',' !in s
    ensures CorsOrigins(Some(s)) == if Trim(s) == "" then [] else [Trim(s)]
  {
    assert Split(s, ',') == [s];
  }

  /** The comma-separated order is kept: entries before a comma come before
      the entries after it. */
  lemma CorsOriginsConcat(a: string, b: string)
    ensures CorsOrigins(Some(a + "," + b)) == CorsOrigins(Some(a)) + CorsOrigins(Some(b))
  {
    SplitConcat(a, b, ',');
    TrimAllConcat(Split(a, ','), Split(b, ','));
    DropEmptyConcat(TrimAll(Split(a, ',')), TrimAll(Split(b, ',')));
  }

  /** What `enableCors` receives as `origin`. */
  datatype CorsOriginSetting = AllowAnyOrigin | AllowList(origins: seq<string>)

  /** Production uses the configured list; any other environment allows every origin. */
  function CorsOriginFor(environment: Option<string>, config: Option<string>): (r: CorsOriginSetting)
    ensures environment == Some("production") ==> r == AllowList(CorsOrigins(config))
    ensures environment != Some("production") ==> r == AllowAnyOrigin
  {
    var isProd := environment == Some("production");
    if isProd then AllowList(CorsOrigins(config)) else AllowAnyOrigin
  }
}
