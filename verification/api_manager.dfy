/**
 `APIManager`: holds the API key handed to it and names the download
 endpoints the plugin offers.
 */
module ApiManager {
  import opened Wrappers

  datatype Manager = Manager(backendPath: string, key: Option<string>)

  function New(backendPath: string): (m: Manager)
    ensures m.key.None? && m.backendPath == backendPath
  {
    Manager(backendPath, None)
  }

  function SetApiKey(m: Manager, key: string): Manager
  {
    m.(key := Some(key))
  }

  function GetApiKey(m: Manager): Option<string>
  {
    m.key
  }

  /** `get_download_endpoints`: always the single `unified` endpoint. */
  function GetDownloadEndpoints(m: Manager): (r: seq<string>)
    ensures r == ["unified"]
  {
    ["unified"]
  }

  /** A key that was set reads back as set; setting changes nothing else; the last set wins. */
  lemma SetThenGet(m: Manager, k: string, k2: string)
    ensures GetApiKey(SetApiKey(m, k)) == Some(k)
    ensures SetApiKey(m, k).backendPath == m.backendPath
    ensures GetApiKey(SetApiKey(SetApiKey(m, k), k2)) == Some(k2)
    ensures GetApiKey(New(m.backendPath)) == None
  {
  }
}
