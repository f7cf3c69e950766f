/** The configuration of the SSN variant (src/main/java/com/group02/config/DatabaseConfig):
    the `propertiesLoaded` guard around loading the properties, the JDBC URL derived from
    `db.url` and `db.name`, and the root URL the schema migration connects to. The static
    fields are the fields of one object. */
module DatabaseConfiguration {
  import opened Values

  const DEFAULT_CONFIG: string := "config.properties"

  /** The first '/' at or after the character following the last ':' is at an index
      above 0: the URL already names a database. */
  predicate NamesDatabase(baseUrl: string) {
    IndexOfFrom(baseUrl, '/', LastIndexOf(baseUrl, ':') + 1) > 0
  }

  /** `getUrl` once both properties are read: the base URL as it is when it already
      names a database, the base URL, '/' and the database name otherwise. */
  function UrlFrom(baseUrl: string, dbName: string): string {
    if NamesDatabase(baseUrl) then baseUrl else baseUrl + "/" + dbName
  }

  /** A database is named iff some '/' follows the last ':' (anywhere, when there is no
      ':'), unless the URL has no ':' and starts with '/': the search then finds index 0,
      which does not count. */
  lemma NamesDatabaseExactly(b: string)
    ensures NamesDatabase(b) <==>
      && (exists k :: LastIndexOf(b, ':') < k < |b| && b[k] == '/')
      && !(LastIndexOf(b, ':') == -1 && |b| > 0 && b[0] == '/')
  {
    var from := LastIndexOf(b, ':') + 1;
    var r := IndexOfFrom(b, '/', from);
    if exists k :: LastIndexOf(b, ':') < k < |b| && b[k] == '/' {
      var k :| LastIndexOf(b, ':') < k < |b| && b[k] == '/';
      assert r != -1;
      if LastIndexOf(b, ':') == -1 && |b| > 0 && b[0] == '/' {
        assert r == 0;
      }
    }
  }

  /** The base URL is always a prefix of the URL `getUrl` returns. */
  lemma UrlExtendsBase(baseUrl: string, dbName: string)
    ensures |baseUrl| <= |UrlFrom(baseUrl, dbName)|
    ensures UrlFrom(baseUrl, dbName)[..|baseUrl|] == baseUrl
    ensures !NamesDatabase(baseUrl) ==> UrlFrom(baseUrl, dbName)[|baseUrl|..] == "/" + dbName
  {
    if !NamesDatabase(baseUrl) {
      assert baseUrl + "/" + dbName == baseUrl + ("/" + dbName);
    }
  }

  /** `url.substring(0, url.lastIndexOf("/"))`; without a '/', `substring(0, -1)` throws. */
  function RootUrl(url: string): (r: Option<string>)
    ensures r.None? <==> '/' !in url
    ensures r.Some? ==> r.value + "/" <= url
  {
    var i := LastIndexOf(url, '/');
    if i < 0 then
      assert forall k :: 0 <= k < |url| ==> url[k] != '/';
      None
    else
      assert url[..i] + "/" == url[..i + 1];
      Some(url[..i])
  }

  /** The last c is at i when s[i] is c and no c follows it. */
  lemma LastIndexOfIs(s: string, c: char, i: int)
    requires 0 <= i < |s| && s[i] == c
    requires forall k :: i < k < |s| ==> s[k] != c
    ensures LastIndexOf(s, c) == i
  {
  }

  /** For a URL built by appending a database name without '/', the root URL is the
      base URL. */
  lemma RootOfAppendedUrl(baseUrl: string, dbName: string)
    requires '/' !in dbName
    ensures RootUrl(baseUrl + "/" + dbName) == Some(baseUrl)
  {
    var url := baseUrl + "/" + dbName;
    assert forall k :: |baseUrl| < k < |url| ==> url[k] == dbName[k - |baseUrl| - 1];
    LastIndexOfIs(url, '/', |baseUrl|);
    assert url[..|baseUrl|] == baseUrl;
  }

  /** A host part ending in `:port`, with no '/' after the last ':', names no database. */
  lemma PortOnlyNamesNoDatabase(host: string, port: string)
    requires ':' !in port && '/' !in port
    ensures !NamesDatabase(host + ":" + port)
  {
    var b := host + ":" + port;
    assert forall k :: |host| < k < |b| ==> b[k] == port[k - |host| - 1];
    LastIndexOfIs(b, ':', |host|);
  }

  /** `host:port/name`, with neither ':' nor '/' in `port` and no ':' in `name`, names a
      database. */
  lemma PortAndNameNamesDatabase(host: string, port: string, name: string)
    requires ':' !in port && '/' !in port && ':' !in name
    ensures NamesDatabase(host + ":" + port + "/" + name)
  {
    var b := host + ":" + port + "/" + name;
    var slash := |host| + 1 + |port|;
    assert forall k :: |host| < k < slash ==> b[k] == port[k - |host| - 1];
    assert forall k :: slash < k < |b| ==> b[k] == name[k - slash - 1];
    assert b[slash] == '/';
    LastIndexOfIs(b, ':', |host|);
  }

  /** A MySQL base URL with only a host and a port gets the database name added; a URL
      that already has one is kept. */
  lemma UrlExamples()
    ensures UrlFrom("jdbc:mysql://localhost:3306", "employeedb") == "jdbc:mysql://localhost:3306/employeedb"
    ensures UrlFrom("jdbc:mysql://localhost:3306/employeedb", "other") == "jdbc:mysql://localhost:3306/employeedb"
  {
    var host := "jdbc:mysql://localhost";
    assert "jdbc:mysql://localhost:3306" == host + ":" + "3306";
    PortOnlyNamesNoDatabase(host, "3306");
    assert "jdbc:mysql://localhost:3306/employeedb" == host + ":" + "3306" + "/" + "employeedb";
    PortAndNameNamesDatabase(host, "3306", "employeedb");
  }

  /** A Java `Properties` object: its string properties. */
  type Properties = map<string, string>

  /** `getProperty(key)` in a string concatenation: a missing key reads as "null". */
  function PropertyText(p: Properties, key: string): string {
    if key in p then p[key] else "null"
  }

  /** The data source, as far as the configuration sees it. */
  datatype Pool = NoPool | Pool(closed: bool)

  class DatabaseConfig {
    var propertiesLoaded: bool
    /** `dbProperties`, None while it is null. */
    var dbProperties: Option<Properties>
    var dataSource: Pool

    /** The state of the class before any call. */
    constructor ()
      ensures !propertiesLoaded && dbProperties == None && dataSource == NoPool
    {
      propertiesLoaded := false;
      dbProperties := None;
      dataSource := NoPool;
    }

    /** `loadProperties(configFile)`, with the class-path resources as a parameter (None
        when a file is not found). A default load after a successful load does nothing.
        Otherwise the properties are replaced by an empty set; a file that is found
        fills them and sets the flag, one that is not found is reported and leaves them
        empty and the flag as it was. */
    method LoadProperties(configFile: Option<string>, resources: string -> Option<Properties>)
      modifies this
      ensures dataSource == old(dataSource)
      ensures old(propertiesLoaded) && configFile.None? ==>
        propertiesLoaded && dbProperties == old(dbProperties)
      ensures !(old(propertiesLoaded) && configFile.None?) ==>
        var file := if configFile.Some? then configFile.value else DEFAULT_CONFIG;
        && (resources(file).Some? ==> propertiesLoaded && dbProperties == resources(file))
        && (resources(file).None? ==> propertiesLoaded == old(propertiesLoaded) && dbProperties == Some(map[]))
    {
      if propertiesLoaded && configFile.None? {
        return;
      }
      dbProperties := Some(map[]);
      var fileToLoad := if configFile.Some? then configFile.value else DEFAULT_CONFIG;
      var loaded := resources(fileToLoad);
      if loaded.None? {
        return;
      }
      dbProperties := loaded;
      propertiesLoaded := true;
    }

    /** `resetConfiguration`: an open data source is closed, then the data source, the
        properties and the flag are cleared. `released` is the dropped data source as the
        call leaves it. */
    method ResetConfiguration() returns (released: Pool)
      modifies this
      ensures dataSource == NoPool && dbProperties == None && !propertiesLoaded
      ensures released == if old(dataSource).NoPool? then NoPool else Pool(true)
    {
      released := dataSource;
      if dataSource.Pool? && !dataSource.closed {
        released := Pool(true);
      }
      dataSource := NoPool;
      dbProperties := None;
      propertiesLoaded := false;
    }

    /** `getUrl`: None where Java throws a NullPointerException (no properties, or no
        `db.url`); a missing `db.name` is appended as "null". */
    function GetUrl(): (r: Option<string>)
      reads this
      ensures r.None? <==> dbProperties.None? || "db.url" !in dbProperties.value
      ensures r.Some? ==> r.value == UrlFrom(dbProperties.value["db.url"], PropertyText(dbProperties.value, "db.name"))
    {
      match dbProperties
      case None => None
      case Some(p) =>
        if "db.url" !in p then None else Some(UrlFrom(p["db.url"], PropertyText(p, "db.name")))
    }
  }
}
