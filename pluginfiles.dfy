/** The installer catalogue and the signed download URL. */
module Catalogue {
  import opened Wrappers
  import opened Text
  import Utf8
  import Base64

  /** Where the installers are published (a GitHub release). */
  const ReleaseBase: string := "https://github.com/worbybaby/TurntPlugins-website/releases/download/installers-v1.0.0"

  const DefaultAppUrl: string := "http://localhost:3000"

  datatype Platform = MacOS | Windows

  /** The platform as it is written in the catalogue and in a `platform=` query. */
  function PlatformName(p: Platform): (s: string)
    ensures s != []
  {
    match p
    case MacOS => "macOS"
    case Windows => "Windows"
  }

  datatype FileInfo = FileInfo(fileName: string, downloadUrl: string, fileSize: string, platform: Platform)

  datatype PluginFile = PluginFile(id: string, files: seq<FileInfo>)

  // The record of installers, one entry per plugin id.

  const CassetteVibeFiles: PluginFile := PluginFile("1", [
    FileInfo("CassetteVibe_v2.0.0_macOS.pkg", ReleaseBase + "/" + "CassetteVibe_v2.0.0_macOS.pkg", "62MB", MacOS),
    FileInfo("CassetteVibe-v2.0.0-Windows-x64.exe", ReleaseBase + "/" + "CassetteVibe-v2.0.0-Windows-x64.exe", "17MB", Windows)])

  const PrettyPrettyPrincessSparkleFiles: PluginFile := PluginFile("2", [
    FileInfo("PrettyPrettyPrincessSparkle_v1.0.3.pkg", ReleaseBase + "/" + "PrettyPrettyPrincessSparkle_v1.0.3.pkg", "56MB", MacOS),
    FileInfo("PPPS-v1.0.2-Win-x64.exe", ReleaseBase + "/" + "PPPS-v1.0.2-Win-x64.exe", "16MB", Windows)])

  const SpaceBassButtFiles: PluginFile := PluginFile("3", [
    FileInfo("Space.Bass.Butt_v1.0.8.pkg", ReleaseBase + "/" + "Space.Bass.Butt_v1.0.8.pkg", "58MB", MacOS),
    FileInfo("SpaceBassButt-v1.0.8-Windows-x64.exe", ReleaseBase + "/" + "SpaceBassButt-v1.0.8-Windows-x64.exe", "16MB", Windows)])

  const TapeBloomFiles: PluginFile := PluginFile("4", [
    FileInfo("TapeBloom_v2.0.2.pkg", ReleaseBase + "/" + "TapeBloom_v2.0.2.pkg", "81MB", MacOS),
    FileInfo("TapeBloom-v2.0.2-Windows-x64.exe", ReleaseBase + "/" + "TapeBloom-v2.0.2-Windows-x64.exe", "19MB", Windows)])

  const TapewormFiles: PluginFile := PluginFile("5", [
    FileInfo("Tapeworm_v1.0.9.pkg", ReleaseBase + "/" + "Tapeworm_v1.0.9.pkg", "60MB", MacOS),
    FileInfo("Tapeworm-v1.0.8-Windows-x64.exe", ReleaseBase + "/" + "Tapeworm-v1.0.8-Windows-x64.exe", "16MB", Windows)])

  const RubberPreFiles: PluginFile := PluginFile("6", [
    FileInfo("RubberPRE_v1.0.3.pkg", ReleaseBase + "/" + "RubberPRE_v1.0.3.pkg", "38MB", MacOS),
    FileInfo("RubberPRE-v1.0.3-Windows-x64.exe", ReleaseBase + "/" + "RubberPRE-v1.0.3-Windows-x64.exe", "11MB", Windows)])

  const VocalFeltFiles: PluginFile := PluginFile("7", [
    FileInfo("VocalFelt_v1.0.4.pkg", ReleaseBase + "/" + "VocalFelt_v1.0.4.pkg", "72MB", MacOS),
    FileInfo("VocalFelt-v1.0.4-Windows-x64.exe", ReleaseBase + "/" + "VocalFelt-v1.0.4-Windows-x64.exe", "19MB", Windows)])

  const CatalogueIds: set<string> := {"1", "2", "3", "4", "5", "6", "7"}

  /** `pluginFiles[pluginId] || null`. */
  function GetPluginFile(pluginId: string): (r: Option<PluginFile>)
    ensures r.Some? <==> pluginId in CatalogueIds
    ensures r.Some? ==> r.value.id == pluginId
  {
    if pluginId == "1" then Some(CassetteVibeFiles)
    else if pluginId == "2" then Some(PrettyPrettyPrincessSparkleFiles)
    else if pluginId == "3" then Some(SpaceBassButtFiles)
    else if pluginId == "4" then Some(TapeBloomFiles)
    else if pluginId == "5" then Some(TapewormFiles)
    else if pluginId == "6" then Some(RubberPreFiles)
    else if pluginId == "7" then Some(VocalFeltFiles)
    else None
  }

  /** Every entry has two installers, the macOS one first, each published
      under its own file name. */
  predicate WellFormedEntry(e: PluginFile)
  {
    |e.files| == 2 && e.files[0].platform == MacOS && e.files[1].platform == Windows
    && forall i :: 0 <= i < 2 ==> e.files[i].downloadUrl == ReleaseBase + "/" + e.files[i].fileName
  }

  lemma CatalogueWellFormed(pluginId: string)
    requires pluginId in CatalogueIds
    ensures GetPluginFile(pluginId).Some?
    ensures GetPluginFile(pluginId).value.id == pluginId
    ensures WellFormedEntry(GetPluginFile(pluginId).value)
  {
    var e := GetPluginFile(pluginId).value;
    forall i | 0 <= i < 2
      ensures e.files[i].downloadUrl == ReleaseBase + "/" + e.files[i].fileName
    {
    }
  }

  /** The bundle is not a downloadable plugin of its own. */
  lemma BundleHasNoFiles()
    ensures GetPluginFile("bundle") == None
  {
  }

  /** `process.env.NEXT_PUBLIC_APP_URL || 'http://localhost:3000'`: an unset or
      empty variable falls back to the local address. */
  function BaseUrl(appUrl: Option<string>): (s: string)
    ensures appUrl.Some? && appUrl.value != [] ==> s == appUrl.value
    ensures appUrl.None? || appUrl.value == [] ==> s == DefaultAppUrl
  {
    if appUrl.Some? && appUrl.value != [] then appUrl.value else DefaultAppUrl
  }

  /** The text inside a token: `${orderId}:${pluginId}:${Date.now()}`. */
  function TokenText(orderId: string, pluginId: string, now: nat): string
  {
    orderId + ":" + pluginId + ":" + NatToString(now)
  }

  /** The token: the UTF-8 bytes of the token text in base64. */
  function Token(orderId: string, pluginId: string, now: nat): (t: string)
    ensures '&' !in t
  {
    Base64.Encode(Utf8.Encode(TokenText(orderId, pluginId, now)))
  }

  /** The query field naming a platform. */
  function PlatformField(platform: Platform): string
  {
    "platform=" + PlatformName(platform)
  }

  /** `platform ? `&platform=${platform}` : ''`. */
  function PlatformParam(platform: Option<Platform>): string
  {
    if platform.Some? then "&" + PlatformField(platform.value) else ""
  }

  /** generateSignedUrl(pluginId, orderId, platform) at time `now`. Read back as
      a query string, the URL carries the token and, exactly when a platform was
      given, a second field naming it. */
  function SignedUrl(appUrl: Option<string>, pluginId: string, orderId: string, platform: Option<Platform>, now: nat): (url: string)
    ensures IsPrefix(BaseUrl(appUrl) + DownloadPath, url)
    ensures Split(url[|BaseUrl(appUrl) + DownloadPath|..], '&') ==
      if platform.None? then ["token=" + Token(orderId, pluginId, now)]
      else ["token=" + Token(orderId, pluginId, now), PlatformField(platform.value)]
  {
    var head := BaseUrl(appUrl) + DownloadPath;
    var tok := Token(orderId, pluginId, now);
    var field := "token=" + tok;
    var query := field + PlatformParam(platform);
    var url := head + query;
    assert url[..|head|] == head && url[|head|..] == query;
    TokenFieldPlain(tok);
    QuerySplit(field, platform);
    url
  }

  const DownloadPath: string := "/api/download?"

  lemma TokenFieldPlain(tok: string)
    requires '&' !in tok
    ensures '&' !in "token=" + tok
  {
    var field := "token=" + tok;
    forall i | 0 <= i < |field|
      ensures field[i] != '&'
    {
      if i >= 6 {
        assert field[i] == tok[i - 6];
      }
    }
  }

  lemma PlatformFieldPlain(platform: Platform)
    ensures '&' !in PlatformField(platform)
  {
    match platform
    case MacOS => assert PlatformField(platform) == "platform=macOS";
    case Windows => assert PlatformField(platform) == "platform=Windows";
  }

  lemma SplitTwoFields(field: string, p: string)
    requires '&' !in field && '&' !in p
    ensures Split(field + ("&" + p), '&') == [field, p]
  {
    assert field + ("&" + p) == field + ['&'] + p;
    SplitAtFirst(field, '&', p);
    SplitNoSeparator(p, '&');
  }

  lemma QuerySplit(field: string, platform: Option<Platform>)
    requires '&' !in field
    ensures Split(field + PlatformParam(platform), '&') ==
      if platform.None? then [field] else [field, PlatformField(platform.value)]
  {
    if platform.None? {
      assert field + PlatformParam(platform) == field;
      SplitNoSeparator(field, '&');
    } else {
      PlatformFieldPlain(platform.value);
      SplitTwoFields(field, PlatformField(platform.value));
    }
  }

}
