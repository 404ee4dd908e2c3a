/** GET /api/download: redeem a signed link. The token is decoded into an order
    id and a plugin id, the grant is looked up, an expired grant is refused,
    otherwise the download count is bumped and the browser is redirected to the
    installer for the requested platform. The query string arrives already
    split into its `token` and `platform` values (None when absent). */
module Download {
  import opened Wrappers
  import opened Text
  import opened Store
  import opened Catalogue
  import Base64
  import Utf8
  import Grants
  import PluginJson

  datatype Response = Redirect(location: string) | Error(status: nat, message: string)

  const MissingToken := "Missing download token"
  const InvalidToken := "Invalid download token"
  const NotFound := "Download not found"
  const Expired := "Download link has expired. Please contact support."
  const NoPluginFile := "Plugin file not found"
  const Failed := "Failed to process download"

  /** `Buffer.from(token, 'base64').toString('utf-8').split(':')`, keeping the
      first two fields; None where either is empty or missing. */
  function DecodeToken(token: string): (r: Option<(string, string)>)
    ensures r.Some? ==> r.value.0 != "" && r.value.1 != "" && ':' !in r.value.0 && ':' !in r.value.1
  {
    match Base64.Decode(token)
    case None => None
    case Some(bytes) =>
      match Utf8.Decode(bytes)
      case None => None
      case Some(decoded) =>
        var parts := Split(decoded, ':');
        var orderId := parts[0];
        var pluginId := if |parts| >= 2 then parts[1] else "";
        if orderId == "" || pluginId == "" then None else Some((orderId, pluginId))
  }

  /** The token text splits into the order id, the plugin id and the stamp. */
  lemma TokenTextFields(orderId: string, pluginId: string, now: nat)
    requires ':' !in orderId && ':' !in pluginId
    ensures Split(TokenText(orderId, pluginId, now), ':') == [orderId, pluginId, NatToString(now)]
  {
    var stamp := NatToString(now);
    assert ':' !in stamp by {
      forall i | 0 <= i < |stamp|
        ensures stamp[i] != ':'
      {
        assert IsDigit(stamp[i]);
      }
    }
    assert TokenText(orderId, pluginId, now) == orderId + [':'] + (pluginId + [':'] + stamp);
    SplitAtFirst(orderId, ':', pluginId + [':'] + stamp);
    SplitAtFirst(pluginId, ':', stamp);
    SplitNoSeparator(stamp, ':');
  }

  /** Round trip: a token made by generateSignedUrl decodes to the ids it was
      made from, whatever its timestamp. */
  lemma DecodeIssuedToken(orderId: string, pluginId: string, now: nat)
    requires orderId != "" && pluginId != "" && ':' !in orderId && ':' !in pluginId
    ensures DecodeToken(Token(orderId, pluginId, now)) == Some((orderId, pluginId))
  {
    var text := TokenText(orderId, pluginId, now);
    Base64.DecodeEncode(Utf8.Encode(text));
    Utf8.DecodeEncode(text);
    TokenTextFields(orderId, pluginId, now);
  }

  /** Whether a downloads row answers the SELECT: its order id and plugin id
      match and the JOIN finds its order. */
  predicate Answers(orders: seq<OrderRow>, d: DownloadRow, orderId: int, pluginId: string)
  {
    GrantMatches(d, orderId, pluginId) && OrderExists(orders, d.orderId)
  }

  /** The `... JOIN orders ... LIMIT 1` lookup: the first answering row in table order. */
  function FindGrant(orders: seq<OrderRow>, downloads: seq<DownloadRow>, orderId: int, pluginId: string): (r: Option<DownloadRow>)
    ensures r.Some? <==> exists k :: 0 <= k < |downloads| && Answers(orders, downloads[k], orderId, pluginId)
    ensures r.Some? ==> exists k :: 0 <= k < |downloads| && downloads[k] == r.value && Answers(orders, r.value, orderId, pluginId)
  {
    if downloads == [] then None
    else if Answers(orders, downloads[0], orderId, pluginId) then Some(downloads[0])
    else
      var r := FindGrant(orders, downloads[1..], orderId, pluginId);
      assert forall k :: 1 <= k < |downloads| ==> downloads[k] == downloads[1..][k - 1];
      r
  }

  /** How far a request gets before the download count is touched. */
  datatype Admission = Refused(status: nat, message: string) | Admitted(orderId: int, pluginId: string)

  /** Lines 34-54 of the route, once the order id has been read: an order id
      outside the INTEGER range makes the query throw; then no grant, or an
      expired first grant, is refused. */
  function AdmitId(orders: seq<OrderRow>, downloads: seq<DownloadRow>, orderId: int, pluginId: string, now: int): (a: Admission)
    ensures a.Admitted? ==> a.orderId == orderId && a.pluginId == pluginId
    ensures a == Refused(410, Expired) <==>
      InInt32(orderId) && FindGrant(orders, downloads, orderId, pluginId).Some?
      && FindGrant(orders, downloads, orderId, pluginId).value.expiresAt < now
  {
    if !InInt32(orderId) then Refused(500, Failed)
    else match FindGrant(orders, downloads, orderId, pluginId)
      case None => Refused(404, NotFound)
      case Some(g) =>
        if g.expiresAt < now then Refused(410, Expired) else Admitted(orderId, pluginId)
  }

  /** Lines 9-54 of the route: missing token, bad token, unparsable or
      out-of-range order id, no grant, expired grant. An order id that parseInt
      reads as NaN, or one outside the INTEGER range, makes the query throw. */
  function Admit(orders: seq<OrderRow>, downloads: seq<DownloadRow>, token: Option<string>, now: int): (a: Admission)
    ensures token.None? || token == Some("") ==> a == Refused(400, MissingToken)
    ensures a.Admitted? ==>
      && InInt32(a.orderId) && OrderExists(orders, a.orderId)
      && exists k :: 0 <= k < |downloads| && GrantMatches(downloads[k], a.orderId, a.pluginId) && now <= downloads[k].expiresAt
    ensures a == Refused(410, Expired) ==>
      exists k :: 0 <= k < |downloads| && downloads[k].expiresAt < now
    ensures a == Refused(410, Expired) ==>
      && token.Some? && DecodeToken(token.value).Some?
      && ParseInt(DecodeToken(token.value).value.0).Some?
      && var orderId := ParseInt(DecodeToken(token.value).value.0).value;
         var g := FindGrant(orders, downloads, orderId, DecodeToken(token.value).value.1);
         g.Some? && g.value.expiresAt < now
  {
    if token.None? || token.value == "" then Refused(400, MissingToken)
    else match DecodeToken(token.value)
      case None => Refused(400, InvalidToken)
      case Some((orderText, pluginId)) =>
        match ParseInt(orderText)
        case None => Refused(500, Failed)
        case Some(orderId) => AdmitId(orders, downloads, orderId, pluginId, now)
  }

  /** `pluginFile.files.find(f => f.platform === platform)`. */
  function FindFile(files: seq<FileInfo>, platform: string): (r: Option<FileInfo>)
    ensures r.Some? <==> exists i :: 0 <= i < |files| && PlatformName(files[i].platform) == platform
    ensures r.Some? ==> r.value in files && PlatformName(r.value.platform) == platform
    ensures r.Some? && files != [] && PlatformName(files[0].platform) == platform ==> r.value == files[0]
  {
    if files == [] then None
    else if PlatformName(files[0].platform) == platform then Some(files[0])
    else
      var r := FindFile(files[1..], platform);
      assert forall i :: 1 <= i < |files| ==> files[i] == files[1..][i - 1];
      r
  }

  /** Lines 60-88: choose the installer once the count has been bumped. An empty
      `platform` parameter counts as absent. */
  function Serve(pluginId: string, platform: Option<string>): (r: Response)
    ensures r.Error? ==> r.status == 404
    ensures r.Redirect? <==>
      && GetPluginFile(pluginId).Some? && GetPluginFile(pluginId).value.files != []
      && (platform.Some? && platform.value != "" ==>
            exists f :: f in GetPluginFile(pluginId).value.files && PlatformName(f.platform) == platform.value)
    ensures r.Redirect? ==>
      exists f :: f in GetPluginFile(pluginId).value.files && r.location == f.downloadUrl
        && (platform.Some? && platform.value != "" ==> PlatformName(f.platform) == platform.value)
    ensures r.Redirect? && (platform.None? || platform.value == "") ==>
      r.location == GetPluginFile(pluginId).value.files[0].downloadUrl
  {
    match GetPluginFile(pluginId)
    case None => Error(404, NoPluginFile)
    case Some(pf) =>
      if |pf.files| == 0 then Error(404, NoPluginFile)
      else if platform.Some? && platform.value != "" then
        match FindFile(pf.files, platform.value)
        case None => Error(404, NoPluginFile + " for " + platform.value)
        case Some(f) => Redirect(f.downloadUrl)
      else Redirect(pf.files[0].downloadUrl)
  }

  /** The whole response of the route. */
  function DownloadResponse(orders: seq<OrderRow>, downloads: seq<DownloadRow>, token: Option<string>,
                            platform: Option<string>, now: int): Response
  {
    match Admit(orders, downloads, token, now)
    case Refused(status, message) => Error(status, message)
    case Admitted(_, pluginId) => Serve(pluginId, platform)
  }

  /** The downloads table after the request: bumped exactly when admitted. */
  function DownloadsAfter(orders: seq<OrderRow>, downloads: seq<DownloadRow>, token: Option<string>, now: int): seq<DownloadRow>
  {
    match Admit(orders, downloads, token, now)
    case Refused(_, _) => downloads
    case Admitted(orderId, pluginId) => Bumped(downloads, orderId, pluginId)
  }

  /** GET /api/download. */
  method Redeem(db: Db, token: Option<string>, platform: Option<string>, now: int) returns (resp: Response)
    requires db.Valid()
    modifies db
    ensures db.Valid()
    ensures db.orders == old(db.orders) && db.nextOrderId == old(db.nextOrderId)
    ensures resp == DownloadResponse(old(db.orders), old(db.downloads), token, platform, now)
    ensures db.downloads == DownloadsAfter(old(db.orders), old(db.downloads), token, now)
  {
    var admission := Admit(db.orders, db.downloads, token, now);
    if admission.Refused? {
      return Error(admission.status, admission.message);
    }
    db.IncrementDownloadCount(admission.orderId, admission.pluginId);
    resp := Serve(admission.pluginId, platform);
  }

  // ---------------------------------------------------------------- properties

  /** The token of an issued link is non-empty and names the order's decimal id
      and the plugin id. */
  lemma IssuedToken(id: nat, pluginId: string, stamp: nat)
    requires pluginId != "" && ':' !in pluginId
    ensures Token(NatToString(id), pluginId, stamp) != ""
    ensures DecodeToken(Token(NatToString(id), pluginId, stamp)) == Some((NatToString(id), pluginId))
    ensures ParseInt(NatToString(id)) == Some(id)
  {
    var orderText := NatToString(id);
    assert ':' !in orderText by {
      forall i | 0 <= i < |orderText|
        ensures orderText[i] != ':'
      {
        assert IsDigit(orderText[i]);
      }
    }
    DecodeIssuedToken(orderText, pluginId, stamp);
    ParseIntNatToString(id);
  }

  /** Once a token decodes to an in-range order id, only the lookup and the
      expiry decide admission. */
  lemma AdmitDecoded(orders: seq<OrderRow>, downloads: seq<DownloadRow>, token: string, id: nat, pluginId: string, now: int)
    requires token != "" && InInt32(id)
    requires DecodeToken(token) == Some((NatToString(id), pluginId)) && ParseInt(NatToString(id)) == Some(id)
    ensures FindGrant(orders, downloads, id, pluginId).None? ==> Admit(orders, downloads, Some(token), now) == Refused(404, NotFound)
    ensures FindGrant(orders, downloads, id, pluginId).Some? ==>
      Admit(orders, downloads, Some(token), now) ==
        if FindGrant(orders, downloads, id, pluginId).value.expiresAt < now then Refused(410, Expired) else Admitted(id, pluginId)
  {
  }

  /** parseInt without a radix reads an order id written `0x...` as
      hexadecimal: a token for "0x1A" is looked up as order 26, and one for a
      bare "0x" reads NaN and makes the query throw. */
  lemma HexOrderId(orders: seq<OrderRow>, downloads: seq<DownloadRow>, token: string, x: char, hs: string, pluginId: string, now: int)
    requires token != "" && (x == 'x' || x == 'X') && AllHexDigits(hs)
    requires DecodeToken(token) == Some((['0', x] + hs, pluginId))
    ensures hs == [] ==> Admit(orders, downloads, Some(token), now) == Refused(500, Failed)
    ensures hs != [] ==> Admit(orders, downloads, Some(token), now) == AdmitId(orders, downloads, HexNumeralValue(hs), pluginId, now)
  {
    ParseIntHex(x, hs, []);
    assert ['0', x] + hs + [] == ['0', x] + hs;
  }

  /** A link issued for an order and plugin is admitted, bumping that grant,
      as long as every matching grant is unexpired (at `expiresAt` itself the
      link still works); the token's timestamp plays no part. */
  lemma IssuedLinkAdmitted(orders: seq<OrderRow>, downloads: seq<DownloadRow>, id: nat, pluginId: string, stamp: nat, now: int)
    requires pluginId != "" && ':' !in pluginId && InInt32(id) && OrderExists(orders, id)
    requires exists k :: 0 <= k < |downloads| && GrantMatches(downloads[k], id, pluginId)
    requires forall k :: 0 <= k < |downloads| && GrantMatches(downloads[k], id, pluginId) ==> now <= downloads[k].expiresAt
    ensures Admit(orders, downloads, Some(Token(NatToString(id), pluginId, stamp)), now) == Admitted(id, pluginId)
  {
    IssuedToken(id, pluginId, stamp);
    AdmitDecoded(orders, downloads, Token(NatToString(id), pluginId, stamp), id, pluginId, now);
    var k :| 0 <= k < |downloads| && GrantMatches(downloads[k], id, pluginId);
    assert Answers(orders, downloads[k], id, pluginId);
    var g := FindGrant(orders, downloads, id, pluginId).value;
    var j :| 0 <= j < |downloads| && downloads[j] == g && Answers(orders, g, id, pluginId);
    assert now <= downloads[j].expiresAt;
  }

  /** A link whose every matching grant has expired gets 410 and leaves the
      table alone. */
  lemma ExpiredLinkRefused(orders: seq<OrderRow>, downloads: seq<DownloadRow>, id: nat, pluginId: string, stamp: nat, now: int)
    requires pluginId != "" && ':' !in pluginId && InInt32(id) && OrderExists(orders, id)
    requires exists k :: 0 <= k < |downloads| && GrantMatches(downloads[k], id, pluginId)
    requires forall k :: 0 <= k < |downloads| && GrantMatches(downloads[k], id, pluginId) ==> downloads[k].expiresAt < now
    ensures Admit(orders, downloads, Some(Token(NatToString(id), pluginId, stamp)), now) == Refused(410, Expired)
    ensures DownloadsAfter(orders, downloads, Some(Token(NatToString(id), pluginId, stamp)), now) == downloads
  {
    IssuedToken(id, pluginId, stamp);
    AdmitDecoded(orders, downloads, Token(NatToString(id), pluginId, stamp), id, pluginId, now);
    var k :| 0 <= k < |downloads| && GrantMatches(downloads[k], id, pluginId);
    assert Answers(orders, downloads[k], id, pluginId);
    var g := FindGrant(orders, downloads, id, pluginId).value;
    var j :| 0 <= j < |downloads| && downloads[j] == g && Answers(orders, g, id, pluginId);
    assert downloads[j].expiresAt < now;
  }

  /** A token whose ids match no grant gets 404 and leaves the table alone. */
  lemma UnknownGrantNotFound(orders: seq<OrderRow>, downloads: seq<DownloadRow>, id: nat, pluginId: string, stamp: nat, now: int)
    requires pluginId != "" && ':' !in pluginId && InInt32(id)
    requires forall k :: 0 <= k < |downloads| ==> !GrantMatches(downloads[k], id, pluginId)
    ensures Admit(orders, downloads, Some(Token(NatToString(id), pluginId, stamp)), now) == Refused(404, NotFound)
    ensures DownloadsAfter(orders, downloads, Some(Token(NatToString(id), pluginId, stamp)), now) == downloads
  {
    IssuedToken(id, pluginId, stamp);
    AdmitDecoded(orders, downloads, Token(NatToString(id), pluginId, stamp), id, pluginId, now);
  }

  /** Installer choice for a catalogued plugin: the macOS or Windows installer
      when that platform is asked for, the first (macOS) one when none is, and
      404 for any other platform name. */
  lemma ServeCatalogued(pluginId: string, platform: Option<string>)
    requires pluginId in CatalogueIds
    ensures var files := GetPluginFile(pluginId).value.files;
      && |files| == 2 && files[0].platform == MacOS && files[1].platform == Windows
      && (platform.None? || platform == Some("") || platform == Some("macOS") ==> Serve(pluginId, platform) == Redirect(files[0].downloadUrl))
      && (platform == Some("Windows") ==> Serve(pluginId, platform) == Redirect(files[1].downloadUrl))
      && (platform.Some? && platform.value !in {"", "macOS", "Windows"} ==>
            Serve(pluginId, platform) == Error(404, NoPluginFile + " for " + platform.value))
  {
    CatalogueWellFormed(pluginId);
    var files := GetPluginFile(pluginId).value.files;
    if platform == Some("Windows") {
      assert PlatformName(files[1].platform) == "Windows";
      assert PlatformName(files[0].platform) != "Windows";
      var r := FindFile(files, "Windows");
      assert r.value in files;
    }
  }

  /** Ids outside the catalogue (the bundle, a `-windows` id) are answered with
      404 after the count has been bumped. */
  lemma ServeUncatalogued(pluginId: string, platform: Option<string>)
    requires pluginId !in CatalogueIds
    ensures Serve(pluginId, platform) == Error(404, NoPluginFile)
  {
  }

  /** A Windows link carries the bare plugin id in its token, so redeeming it
      bumps the macOS row of the plugin and never the `-windows` row written
      beside it. */
  lemma WindowsLinkBumpsMacRow(appUrl: Option<string>, orderId: nat, p: PluginJson.Plugin, now: nat, downloads: seq<DownloadRow>)
    requires p.id != "" && ':' !in p.id
    ensures var url := Grants.SignedUrls(appUrl, orderId, now)(p, Windows);
      var query := url[|BaseUrl(appUrl) + DownloadPath|..];
      var tok := Token(NatToString(orderId), p.id, now);
      && IsPrefix(BaseUrl(appUrl) + DownloadPath, url)
      && Split(query, '&') == ["token=" + tok, PlatformField(Windows)]
      && DecodeToken(tok) == Some((NatToString(orderId), p.id))
    ensures forall k :: 0 <= k < |downloads| && downloads[k].pluginId == p.id + "-windows" ==>
      Bumped(downloads, orderId, p.id)[k] == downloads[k]
  {
    var orderText := NatToString(orderId);
    assert ':' !in orderText by {
      forall i | 0 <= i < |orderText|
        ensures orderText[i] != ':'
      {
        assert IsDigit(orderText[i]);
      }
    }
    DecodeIssuedToken(orderText, p.id, now);
    forall k | 0 <= k < |downloads| && downloads[k].pluginId == p.id + "-windows"
      ensures Bumped(downloads, orderId, p.id)[k] == downloads[k]
    {
      assert |p.id + "-windows"| != |p.id|;
    }
  }
}
