/**
 * The settings of a WadoConnection and what is computed from them alone: the resource and
 * login URLs, and the password redaction applied to every diagnostic message.
 */
module Urls {
  import opened Wrappers
  import opened Text
  import opened UrlEncoding

  const WadoLiterals := "&contentType=application/dicom&requestType=WADO"
  const TransferSyntaxKey := "&transferSyntax="
  const PasswordPlaceholder := "<password>"

  /** What a WadoConnection is built from; `forceTransferSyntax` is None when not given. */
  datatype Config = Config(
    hostname: string,
    port: string,
    username: string,
    password: string,
    forceTransferSyntax: Option<string>)
  {
    /** `http://{host}:{port}/wado/`, shared by both URLs. */
    function WadoRoot(): string
    {
      "http://" + hostname + ":" + port + "/wado/"
    }

    /** The server URL up to and including the `?`. */
    function BaseUrlForQuery(): string
    {
      WadoRoot() + "?"
    }

    /** Python tests `if self.force_transfer_syntax:`, so an empty string counts as not given. */
    predicate ForcesTransferSyntax()
    {
      forceTransferSyntax.Some? && forceTransferSyntax.value != ""
    }

    function TransferSuffix(): (t: string)
      ensures t == [] <==> !ForcesTransferSyntax()
    {
      if ForcesTransferSyntax() then TransferSyntaxKey + forceTransferSyntax.value else ""
    }

    /** The URL of the resource the parameters identify. */
    function ResourceUrl(params: seq<Param>): (url: string)
      ensures StartsWith(url, BaseUrlForQuery())
      ensures EndsWith(url, TransferSuffix())
    {
      var base := BaseUrlForQuery();
      var url := base + Query(params) + TransferSuffix();
      assert url[..|base|] == base;
      assert url[|url| - |TransferSuffix()|..] == TransferSuffix();
      url
    }

    /** The encoded parameters and the fixed `contentType`/`requestType` literals, or nothing. */
    function Query(params: seq<Param>): string
    {
      if params != [] then UrlEncode(params) + WadoLiterals else ""
    }

    /** The parameters a resource URL of this connection was built from, if it is one. */
    function ParseResourceUrl(url: string): Option<seq<Param>>
    {
      var base := BaseUrlForQuery();
      var suffix := TransferSuffix();
      if |url| < |base| + |suffix| || url[..|base|] != base || url[|url| - |suffix|..] != suffix then None
      else
        var query := url[|base|..|url| - |suffix|];
        if query == [] then Some([])
        else if EndsWith(query, WadoLiterals) then
          var ps := ParseQuery(query[..|query| - |WadoLiterals|]);
          if ps == Some([]) then None else ps
        else None
    }

    /** The login URL: user name and password are inserted verbatim, without quoting. */
    function LoginUrl(): (url: string)
      ensures StartsWith(url, WadoRoot() + "j_security_check?j_username=" + username)
      ensures EndsWith(url, "&j_password=" + password)
    {
      var prefix := WadoRoot() + "j_security_check?j_username=" + username;
      var url := prefix + "&j_password=" + password;
      assert url[..|prefix|] == prefix;
      url
    }

    /** `msg` with every occurrence of the password replaced by `<password>`. */
    function MakeSafeForLogging(msg: string): (safe: string)
      ensures password != "" && !Contains(msg, password) ==> safe == msg
    {
      var safe := Replace(msg, password, PasswordPlaceholder);
      assert password != "" && !Contains(msg, password) ==> safe == msg by {
        if password != "" && !Contains(msg, password) {
          ReplaceAbsent(msg, password, PasswordPlaceholder);
        }
      }
      safe
    }
  }

  /** With parameters, the resource URL carries the fixed `contentType`/`requestType` literals. */
  lemma ResourceUrlHasLiterals(c: Config, params: seq<Param>)
    requires params != []
    ensures Contains(c.ResourceUrl(params), WadoLiterals)
  {
    var head := c.BaseUrlForQuery() + UrlEncode(params);
    var suffix := c.TransferSuffix();
    assert c.ResourceUrl(params) == head + WadoLiterals + suffix by {
      AppendAssoc(c.BaseUrlForQuery(), UrlEncode(params), WadoLiterals);
    }
    ContainsAppended(head, WadoLiterals, suffix);
  }

  /**
   * Without parameters, the resource URL is the base URL followed by the forced transfer
   * syntax, if any.
   */
  lemma ResourceUrlWithoutParams(c: Config)
    ensures c.ResourceUrl([]) == c.BaseUrlForQuery() + c.TransferSuffix()
    ensures !c.ForcesTransferSyntax() ==> c.ResourceUrl([]) == c.BaseUrlForQuery()
  {
    assert c.Query([]) == [];
    assert c.BaseUrlForQuery() + [] == c.BaseUrlForQuery();
  }

  /** A forced transfer syntax always ends the resource URL. */
  lemma ResourceUrlEndsWithSyntax(c: Config, params: seq<Param>)
    requires c.ForcesTransferSyntax()
    ensures EndsWith(c.ResourceUrl(params), TransferSyntaxKey + c.forceTransferSyntax.value)
  {
  }

  /** Every resource URL can be read back into exactly the parameters it was built from. */
  lemma ResourceUrlRoundTrip(c: Config, params: seq<Param>)
    ensures c.ParseResourceUrl(c.ResourceUrl(params)) == Some(params)
  {
    var base := c.BaseUrlForQuery();
    var suffix := c.TransferSuffix();
    var query := c.Query(params);
    var url := c.ResourceUrl(params);
    assert url == base + query + suffix;
    assert url[..|base|] == base;
    assert url[|url| - |suffix|..] == suffix;
    assert url[|base|..|url| - |suffix|] == query;
    if params != [] {
      assert query[..|query| - |WadoLiterals|] == UrlEncode(params);
      assert query[|query| - |WadoLiterals|..] == WadoLiterals;
      QueryRoundTrip(params);
    }
  }

  /**
   * Logging a login URL hides the password: when the password first occurs where it is
   * inserted, the redacted URL ends in `&j_password=<password>` and keeps everything before.
   */
  lemma LoginUrlRedacted(c: Config)
    requires c.password != ""
    requires forall j | 0 <= j < |c.LoginUrl()| - |c.password| :: !OccursAt(c.LoginUrl(), c.password, j)
    ensures c.MakeSafeForLogging(c.LoginUrl())
         == c.LoginUrl()[..|c.LoginUrl()| - |c.password|] + PasswordPlaceholder
  {
    var url := c.LoginUrl();
    var i := |url| - |c.password|;
    assert url[i..] == c.password;
    assert OccursAt(url, c.password, i);
    ReplaceFirstOccurrence(url, c.password, PasswordPlaceholder, i);
  }
}
