/**
 * The plugin's own tables (`RCP_Database`): table names, the version-gated
 * schema install, seeding of the default workflow templates, dropping the
 * tables, and the client address recorded with each log line.
 */
module Database {
  import opened Base
  import opened Php

  // ---------------------------------------------------------------- table names

  /** `get_table_name`: the site's table prefix, then `rcp_`, then the table. */
  function TableName(prefix: string, table: string): string {
    prefix + "rcp_" + table
  }

  /** Under one prefix, different tables get different names. */
  lemma TableNameInjective(prefix: string, a: string, b: string)
    requires TableName(prefix, a) == TableName(prefix, b)
    ensures a == b
  {
    var n := |prefix| + 4;
    assert TableName(prefix, a)[n..] == a;
    assert TableName(prefix, b)[n..] == b;
  }

  /** The six tables the plugin creates, in the order it creates and drops them. */
  const Tables: seq<string> := ["feeds", "rules", "webhooks", "executions", "templates", "logs"]

  function PluginTables(prefix: string): set<string> {
    set t | t in Tables :: TableName(prefix, t)
  }

  // ---------------------------------------------------------------- versions

  /** A schema version `major.minor.patch`. */
  datatype Version = Version(major: nat, minor: nat, patch: nat)

  /** `version_compare($a, $b, '<')` on three-part versions. */
  predicate Less(a: Version, b: Version) {
    a.major < b.major ||
    (a.major == b.major && (a.minor < b.minor || (a.minor == b.minor && a.patch < b.patch)))
  }

  /** `DB_VERSION`. */
  const SchemaVersion := Version(1, 0, 0)

  /** What `get_option('rcp_db_version', '0.0.0')` gives when the option is missing. */
  const NoVersion := Version(0, 0, 0)

  // ---------------------------------------------------------------- templates

  /** A row of the templates table (the workflow JSON itself is not modelled). */
  datatype Template = Template(name: string, slug: string, category: string, tags: string, featured: bool)

  const DefaultTemplates: seq<Template> := [
    Template("Basic Content Rewriter", "basic-content-rewriter", "content-rewriting", "openai,rewrite,basic", true),
    Template("SEO-Optimized Content", "seo-optimized-content", "seo", "seo,keywords,optimization", true),
    Template("Multi-Language Translation", "multi-language-translation", "translation", "translation,localization,multilingual", false)
  ]

  // ---------------------------------------------------------------- the schema

  class Database {
    /** `$wpdb->prefix`. */
    const prefix: string
    /** The `rcp_db_version` option; None when it is not set. */
    var dbVersion: Option<Version>
    /** The names of the tables that exist. */
    var tables: set<string>
    /** The rows of the templates table. */
    var templates: seq<Template>

    /** The templates table holds rows only while it exists. */
    ghost predicate Valid()
      reads this
    {
      TableName(prefix, "templates") !in tables ==> templates == []
    }

    constructor (prefix: string)
      ensures Valid() && this.prefix == prefix
      ensures dbVersion == None && tables == {} && templates == []
    {
      this.prefix := prefix;
      dbVersion := None;
      tables := {};
      templates := [];
    }

    /** The installed schema version, `0.0.0` when none is recorded. */
    function Installed(): Version
      reads this
    {
      dbVersion.GetOr(NoVersion)
    }

    /** `check_db_version`: installs the schema and records `DB_VERSION` only when the installed version is older. Afterwards the installed version is never older, so a second call changes nothing. */
    method CheckDbVersion()
      requires Valid()
      modifies this
      ensures Valid()
      ensures !Less(Installed(), SchemaVersion)
      ensures Less(old(Installed()), SchemaVersion) ==>
                dbVersion == Some(SchemaVersion) &&
                tables == old(tables) + PluginTables(prefix) &&
                templates == (if old(templates) == [] then DefaultTemplates else old(templates))
      ensures !Less(old(Installed()), SchemaVersion) ==>
                dbVersion == old(dbVersion) && tables == old(tables) && templates == old(templates)
    {
      if Less(Installed(), SchemaVersion) {
        CreateTables();
        dbVersion := Some(SchemaVersion);
      }
    }

    /** `create_tables`: every plugin table exists afterwards, then the templates are seeded. */
    method CreateTables()
      requires Valid()
      modifies this
      ensures Valid() && dbVersion == old(dbVersion)
      ensures tables == old(tables) + PluginTables(prefix)
      ensures templates == if old(templates) == [] then DefaultTemplates else old(templates)
    {
      tables := tables + PluginTables(prefix);
      assert "templates" in Tables;
      InsertDefaultTemplates();
    }

    /** `insert_default_templates`: seeds the three default templates only when the templates table is empty, so seeding twice is seeding once. */
    method InsertDefaultTemplates()
      requires Valid()
      modifies this
      ensures Valid() && dbVersion == old(dbVersion) && tables == old(tables)
      ensures templates == if old(templates) == [] && TableName(prefix, "templates") in tables
                           then DefaultTemplates else old(templates)
    {
      if |templates| > 0 || TableName(prefix, "templates") !in tables {
        return;
      }
      for i := 0 to |DefaultTemplates|
        invariant templates == DefaultTemplates[..i]
        invariant tables == old(tables) && dbVersion == old(dbVersion)
      {
        templates := templates + [DefaultTemplates[i]];
      }
    }

    /** `drop_tables`: drops the six plugin tables, with their rows, and deletes the version option. */
    method DropTables()
      requires Valid()
      modifies this
      ensures Valid()
      ensures tables == old(tables) - PluginTables(prefix)
      ensures templates == [] && dbVersion == None
    {
      for i := 0 to |Tables|
        invariant tables == old(tables) - (set t | t in Tables[..i] :: TableName(prefix, t))
        invariant i > 4 ==> templates == []
        invariant dbVersion == old(dbVersion) && Valid()
      {
        var name := TableName(prefix, Tables[i]);
        if Tables[i] == "templates" {
          templates := [];
        }
        tables := tables - {name};
        assert Tables[..i + 1] == Tables[..i] + [Tables[i]];
      }
      assert Tables[..|Tables|] == Tables;
      dbVersion := None;
    }
  }

  // ---------------------------------------------------------------- client address

  /** The `$_SERVER` keys `get_client_ip` consults, in order. */
  const IpHeaders: seq<string> := ["HTTP_CLIENT_IP", "HTTP_X_FORWARDED_FOR", "REMOTE_ADDR"]

  /** Each part trimmed, in order. */
  function TrimAll(parts: seq<string>): seq<string> {
    seq(|parts|, k requires 0 <= k < |parts| => Trim(parts[k]))
  }

  /** The comma-separated, trimmed addresses one header offers. */
  function HeaderCandidates(server: map<string, string>, key: string): seq<string> {
    if key in server then TrimAll(Split(server[key], ',')) else []
  }

  /** Every address the headers `keys` offer, in the order they are tried. */
  function Candidates(server: map<string, string>, keys: seq<string>): seq<string>
    decreases |keys|
  {
    if keys == [] then [] else HeaderCandidates(server, keys[0]) + Candidates(server, keys[1..])
  }

  /** The first candidate the validity test accepts. */
  function FirstValid(cands: seq<string>, isValid: string -> bool): Option<string>
    decreases |cands|
  {
    if cands == [] then None
    else if isValid(cands[0]) then Some(cands[0])
    else FirstValid(cands[1..], isValid)
  }

  /** The address `get_client_ip` reports: the first valid candidate, else `REMOTE_ADDR` as it stands, else `0.0.0.0`. */
  function ClientIpOf(server: map<string, string>, isValid: string -> bool): string {
    match FirstValid(Candidates(server, IpHeaders), isValid)
    case Some(ip) => ip
    case None => if "REMOTE_ADDR" in server then server["REMOTE_ADDR"] else "0.0.0.0"
  }

  /** What `FirstValid` finds is valid and every earlier candidate is not; it finds nothing only when no candidate is valid. */
  lemma {:induction false} FirstValidIsFirst(cands: seq<string>, isValid: string -> bool)
    ensures FirstValid(cands, isValid).Some? ==>
              exists i :: 0 <= i < |cands| && cands[i] == FirstValid(cands, isValid).value &&
                isValid(cands[i]) && forall j :: 0 <= j < i ==> !isValid(cands[j])
    ensures FirstValid(cands, isValid).None? <==> forall j :: 0 <= j < |cands| ==> !isValid(cands[j])
    decreases |cands|
  {
    if cands != [] && !isValid(cands[0]) {
      FirstValidIsFirst(cands[1..], isValid);
      if FirstValid(cands[1..], isValid).Some? {
        var i :| 0 <= i < |cands[1..]| && cands[1..][i] == FirstValid(cands[1..], isValid).value &&
                 isValid(cands[1..][i]) && forall j :: 0 <= j < i ==> !isValid(cands[1..][j]);
        assert cands[i + 1] == cands[1..][i];
        forall j | 0 <= j < i + 1 ensures !isValid(cands[j]) {
          if j > 0 { assert cands[j] == cands[1..][j - 1]; }
        }
      } else {
        forall j | 0 <= j < |cands| ensures !isValid(cands[j]) {
          if j > 0 { assert cands[j] == cands[1..][j - 1]; }
        }
      }
    } else if cands != [] {
      assert isValid(cands[0]);
    }
  }

  /** The first valid candidate of a concatenation is the first valid one of the front part, if there is one, and that of the rest otherwise. */
  lemma {:induction false} FirstValidAppend(x: seq<string>, rest: seq<string>, isValid: string -> bool)
    ensures FirstValid(x + rest, isValid) ==
              if FirstValid(x, isValid).Some? then FirstValid(x, isValid) else FirstValid(rest, isValid)
    decreases |x|
  {
    if x == [] {
      assert x + rest == rest;
    } else {
      assert (x + rest)[1..] == x[1..] + rest;
      FirstValidAppend(x[1..], rest, isValid);
    }
  }

  /** The reported address is a valid one from the headers when any header offers one; otherwise it is the fallback. */
  lemma ClientIpChoice(server: map<string, string>, isValid: string -> bool)
    ensures (exists i :: 0 <= i < |Candidates(server, IpHeaders)| && isValid(Candidates(server, IpHeaders)[i])) ==>
              isValid(ClientIpOf(server, isValid)) && ClientIpOf(server, isValid) in Candidates(server, IpHeaders)
    ensures (forall i :: 0 <= i < |Candidates(server, IpHeaders)| ==> !isValid(Candidates(server, IpHeaders)[i])) ==>
              ClientIpOf(server, isValid) == if "REMOTE_ADDR" in server then server["REMOTE_ADDR"] else "0.0.0.0"
  {
    FirstValidIsFirst(Candidates(server, IpHeaders), isValid);
  }

  /** `HTTP_CLIENT_IP` wins: when it offers a valid address, that address is reported whatever the other headers say. */
  lemma ClientIpHeaderFirst(server: map<string, string>, isValid: string -> bool)
    requires FirstValid(HeaderCandidates(server, "HTTP_CLIENT_IP"), isValid).Some?
    ensures ClientIpOf(server, isValid) == FirstValid(HeaderCandidates(server, "HTTP_CLIENT_IP"), isValid).value
  {
    assert IpHeaders[1..] == ["HTTP_X_FORWARDED_FOR", "REMOTE_ADDR"];
    FirstValidAppend(HeaderCandidates(server, "HTTP_CLIENT_IP"), Candidates(server, IpHeaders[1..]), isValid);
  }

  /** The inner loop of `get_client_ip`: the comma-separated, trimmed addresses of one header in turn, stopping at the first valid one. */
  method FindValidPart(parts: seq<string>, isValid: string -> bool) returns (found: Option<string>)
    ensures found == FirstValid(TrimAll(parts), isValid)
  {
    var j := 0;
    while j < |parts|
      invariant 0 <= j <= |parts|
      invariant FirstValid(TrimAll(parts), isValid) == FirstValid(TrimAll(parts)[j..], isValid)
    {
      var candidate := Trim(parts[j]);
      if isValid(candidate) {
        return Some(candidate);
      }
      assert TrimAll(parts)[j..][1..] == TrimAll(parts)[j + 1..];
      j := j + 1;
    }
    return None;
  }

  /** The outer loop of `get_client_ip`: each header in turn, stopping at the first that offers a valid address. */
  method FindValidAddress(server: map<string, string>, keys: seq<string>, isValid: string -> bool) returns (found: Option<string>)
    ensures found == FirstValid(Candidates(server, keys), isValid)
  {
    var k := 0;
    while k < |keys|
      invariant 0 <= k <= |keys|
      invariant FirstValid(Candidates(server, keys), isValid) == FirstValid(Candidates(server, keys[k..]), isValid)
    {
      var key := keys[k];
      assert keys[k..][1..] == keys[k + 1..];
      FirstValidAppend(HeaderCandidates(server, key), Candidates(server, keys[k + 1..]), isValid);
      if key in server {
        found := FindValidPart(Split(server[key], ','), isValid);
        if found.Some? {
          return;
        }
      }
      k := k + 1;
    }
    return None;
  }

  /** `get_client_ip`: the first valid address the headers offer, else `REMOTE_ADDR` as it stands, else `0.0.0.0`. */
  method GetClientIp(server: map<string, string>, isValid: string -> bool) returns (ip: string)
    ensures ip == ClientIpOf(server, isValid)
  {
    var found := FindValidAddress(server, IpHeaders, isValid);
    if found.Some? {
      ip := found.value;
    } else if "REMOTE_ADDR" in server {
      ip := server["REMOTE_ADDR"];
    } else {
      ip := "0.0.0.0";
    }
  }
}
