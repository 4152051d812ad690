/** The PostgreSQL connection string built from the connection popover's
    four entries (host, user, password, database name). */
module ConnStrings {
  import opened Wrappers
  import opened Strs

  /** The text of each entry; an entry without text is None. */
  datatype ConnEntries = ConnEntries(host: Option<string>, user: Option<string>, password: Option<string>, dbname: Option<string>)

  /** The entries in the order they are read. */
  function Texts(e: ConnEntries): (r: seq<Option<string>>)
    ensures |r| == 4
  {
    [e.host, e.user, e.password, e.dbname]
  }

  const Fields: seq<string> := ["host", "user", "password", "dbname"]

  /** The field name the host entry is compared with before its port is
      split off; it carries a leading space, so the comparison never holds. */
  const HostWithPort: string := " host"

  const RemoteErr: string := "Remote connections not allowed yet."

  /** An entry counts only with non-empty text. */
  function Present(o: Option<string>): (r: Option<string>)
    ensures r.Some? <==> o.Some? && o.value != ""
    ensures r.Some? ==> r == o
  {
    if o.Some? && o.value != "" then o else None
  }

  /** Filling the field map from the first entries, as written. */
  function InfoOf(texts: seq<Option<string>>): map<string, string>
    requires |texts| <= 4
  {
    if |texts| == 0 then map[]
    else
      var n := |texts| - 1;
      var info := InfoOf(texts[..n]);
      if texts[n].Some? && texts[n].value != "" then
        if Fields[n] == HostWithPort then
          var spl := Split(texts[n].value, ':');
          if |spl| >= 2 then info["host" := spl[0]]["port" := spl[1]] else info["host" := spl[0]]
        else info[Fields[n] := texts[n].value]
      else info
  }

  /** The user, or nothing. */
  function UserPart(info: map<string, string>): string
  {
    if "user" in info then info["user"] else ""
  }

  /** ":" and the password, or nothing. */
  function PasswordPart(info: map<string, string>): string
  {
    if "password" in info then ":" + info["password"] else ""
  }

  /** "@" and the host, localhost when absent. */
  function HostPart(info: map<string, string>): string
  {
    if "host" in info then "@" + info["host"] else "@localhost"
  }

  /** ":" and the port, 5432 when absent. */
  function PortPart(info: map<string, string>): string
  {
    if "port" in info then ":" + info["port"] else ":5432"
  }

  /** "/" and the database name, or nothing. */
  function DbPart(info: map<string, string>): string
  {
    if "dbname" in info then "/" + info["dbname"] else ""
  }

  /** A host other than localhost or 127.0.0.1 is remote. */
  predicate RemoteHost(info: map<string, string>)
  {
    "host" in info && info["host"] != "localhost" && info["host"] != "127.0.0.1"
  }

  lemma AppendAssoc(a: string, b: string, c: string)
    ensures a + b + c == a + (b + c)
  {
  }

  /** The string assembled from the field map. */
  function Assemble(info: map<string, string>): (r: Result<string>)
    ensures r.Ok? ==> "postgresql://" <= r.value
  {
    if RemoteHost(info) then Err(RemoteErr)
    else Ok("postgresql://" + UserPart(info) + PasswordPart(info) + HostPart(info) + PortPart(info) + DbPart(info))
  }

  /** generate_conn_str, as written. */
  function ConnStr(e: ConnEntries): Result<string>
  {
    Assemble(InfoOf(Texts(e)))
  }

  /** The map holds exactly the present entries, under their own names;
      no port is ever recorded. */
  lemma InfoOfEntries(e: ConnEntries)
    ensures var info := InfoOf(Texts(e));
      && ("host" in info <==> Present(e.host).Some?) && ("host" in info ==> info["host"] == e.host.value)
      && ("user" in info <==> Present(e.user).Some?) && ("user" in info ==> info["user"] == e.user.value)
      && ("password" in info <==> Present(e.password).Some?) && ("password" in info ==> info["password"] == e.password.value)
      && ("dbname" in info <==> Present(e.dbname).Some?) && ("dbname" in info ==> info["dbname"] == e.dbname.value)
      && "port" !in info
  {
    var t := Texts(e);
    assert t[..1][..0] == [];
    assert t[..2][..1] == t[..1] && t[..3][..2] == t[..2] && t[..4][..3] == t[..3] && t[..4] == t;
    var m1 := if Present(e.host).Some? then map["host" := e.host.value] else map[];
    assert InfoOf(t[..1]) == m1;
    var m2 := if Present(e.user).Some? then m1["user" := e.user.value] else m1;
    assert InfoOf(t[..2]) == m2;
    var m3 := if Present(e.password).Some? then m2["password" := e.password.value] else m2;
    assert InfoOf(t[..3]) == m3;
    var m4 := if Present(e.dbname).Some? then m3["dbname" := e.dbname.value] else m3;
    assert InfoOf(t) == m4;
  }

  /** The connection string, entry by entry: "postgresql://", the user,
      ":password", "@" and the host (localhost when absent), the fixed
      port 5432, and "/dbname"; any host other than localhost or
      127.0.0.1 is refused. */
  lemma ConnStrShape(e: ConnEntries)
    ensures var h := Present(e.host);
      ConnStr(e) ==
        if h.Some? && h.value != "localhost" && h.value != "127.0.0.1" then Err(RemoteErr)
        else Ok("postgresql://"
                + (if Present(e.user).Some? then e.user.value else "")
                + (if Present(e.password).Some? then ":" + e.password.value else "")
                + ("@" + (if h.Some? then h.value else "localhost"))
                + ":5432"
                + (if Present(e.dbname).Some? then "/" + e.dbname.value else ""))
  {
    InfoOfEntries(e);
    var info := InfoOf(Texts(e));
    assert UserPart(info) == if Present(e.user).Some? then e.user.value else "";
    assert PasswordPart(info) == if Present(e.password).Some? then ":" + e.password.value else "";
    assert PortPart(info) == ":5432";
    assert DbPart(info) == if Present(e.dbname).Some? then "/" + e.dbname.value else "";
    if !RemoteHost(info) {
      assert HostPart(info) == "@" + (if Present(e.host).Some? then e.host.value else "localhost");
    }
  }

  /** An empty entry is the same as a missing one. */
  lemma EmptyEntryIgnored(e: ConnEntries)
    ensures ConnStr(e) == ConnStr(ConnEntries(Present(e.host), Present(e.user), Present(e.password), Present(e.dbname)))
  {
    ConnStrShape(e);
    ConnStrShape(ConnEntries(Present(e.host), Present(e.user), Present(e.password), Present(e.dbname)));
  }

  /** generate_conn_str: the entries go into a field map one by one, then
      the string is assembled piece by piece. */
  method GenerateConnStr(e: ConnEntries) returns (r: Result<string>)
    ensures r == ConnStr(e)
  {
    var texts := Texts(e);
    var info: map<string, string> := map[];
    var i := 0;
    while i < 4
      invariant 0 <= i <= 4
      invariant info == InfoOf(texts[..i])
    {
      assert texts[..i + 1][..i] == texts[..i];
      var field := Fields[i];
      if texts[i].Some? {
        var value := texts[i].value;
        if value != "" {
          if field == HostWithPort {
            // No field name starts with a space: the port split is dead code.
            assert false;
          }
          info := info[field := value];
        }
      }
      i := i + 1;
    }
    assert texts[..4] == texts;
    r := AssembleConnStr(info);
  }

  /** The second half of generate_conn_str: the string grows piece by
      piece from the field map. */
  method AssembleConnStr(info: map<string, string>) returns (r: Result<string>)
    ensures r == Assemble(info)
  {
    var connStr := "postgresql://";
    if "user" in info {
      connStr := connStr + info["user"];
    } else {
      assert connStr + UserPart(info) == connStr;
    }
    assert connStr == "postgresql://" + UserPart(info);
    if "password" in info {
      AppendAssoc(connStr, ":", info["password"]);
      connStr := connStr + ":" + info["password"];
    } else {
      assert connStr + PasswordPart(info) == connStr;
    }
    assert connStr == "postgresql://" + UserPart(info) + PasswordPart(info);
    if "host" in info {
      var s := info["host"];
      if s == "localhost" || s == "127.0.0.1" {
        AppendAssoc(connStr, "@", s);
        connStr := connStr + "@" + s;
      } else {
        return Err(RemoteErr);
      }
    } else {
      connStr := connStr + "@localhost";
    }
    assert connStr == "postgresql://" + UserPart(info) + PasswordPart(info) + HostPart(info);
    if "port" in info {
      AppendAssoc(connStr, ":", info["port"]);
      connStr := connStr + ":" + info["port"];
    } else {
      connStr := connStr + ":5432";
    }
    assert connStr == "postgresql://" + UserPart(info) + PasswordPart(info) + HostPart(info) + PortPart(info);
    if "dbname" in info {
      AppendAssoc(connStr, "/", info["dbname"]);
      connStr := connStr + "/" + info["dbname"];
    } else {
      assert connStr + DbPart(info) == connStr;
    }
    return Ok(connStr);
  }

  /** As written, a local host with a port is refused as remote. */
  lemma HostWithPortRefused(e: ConnEntries, h: string, port: string)
    requires h == "localhost" || h == "127.0.0.1"
    requires e.host == Some(h + ":" + port)
    ensures ConnStr(e) == Err(RemoteErr)
  {
    ConnStrShape(e);
    var v := h + ":" + port;
    assert v[|h|] == ':';
    assert v != "localhost" && v != "127.0.0.1" by {
      assert ':' !in "localhost" && ':' !in "127.0.0.1";
    }
  }

  /** The field map as intended: the host entry's text is split at ':'
      into host and port. */
  function InfoIntended(texts: seq<Option<string>>): map<string, string>
    requires |texts| <= 4
  {
    if |texts| == 0 then map[]
    else
      var n := |texts| - 1;
      var info := InfoIntended(texts[..n]);
      if texts[n].Some? && texts[n].value != "" then
        if Fields[n] == "host" then
          var spl := Split(texts[n].value, ':');
          if |spl| >= 2 then info["host" := spl[0]]["port" := spl[1]] else info["host" := spl[0]]
        else info[Fields[n] := texts[n].value]
      else info
  }

  function ConnStrIntended(e: ConnEntries): Result<string>
  {
    Assemble(InfoIntended(Texts(e)))
  }

  /** A local host and a port without ':' split apart at the ':'. */
  lemma LocalHostSplit(h: string, port: string)
    requires h == "localhost" || h == "127.0.0.1"
    requires ':' !in port
    ensures Split(h + ":" + port, ':') == [h, port]
  {
    assert Join([h, port], ':') == h + ":" + port;
    assert ':' !in h by {
      assert ':' !in "localhost" && ':' !in "127.0.0.1";
    }
    assert forall k, i :: 0 <= k < |[h, port]| && 0 <= i < |[h, port][k]| ==> [h, port][k][i] != ':' by {
      forall k, i | 0 <= k < |[h, port]| && 0 <= i < |[h, port][k]|
        ensures [h, port][k][i] != ':'
      {
        if k == 0 {
          assert [h, port][k][i] in h;
        } else {
          assert [h, port][k][i] in port;
        }
      }
    }
    JoinSplit([h, port], ':');
  }

  /** The intended field map of entries whose host carries a port. */
  lemma InfoIntendedWithPort(e: ConnEntries, h: string, port: string)
    requires Split(h + ":" + port, ':') == [h, port]
    requires e.host == Some(h + ":" + port)
    ensures var m1 := map["host" := h, "port" := port];
      var m2 := if Present(e.user).Some? then m1["user" := e.user.value] else m1;
      var m3 := if Present(e.password).Some? then m2["password" := e.password.value] else m2;
      InfoIntended(Texts(e)) == if Present(e.dbname).Some? then m3["dbname" := e.dbname.value] else m3
  {
    var t := Texts(e);
    assert t[..1][..0] == [];
    assert t[..2][..1] == t[..1] && t[..3][..2] == t[..2] && t[..4][..3] == t[..3] && t[..4] == t;
    var m1 := map["host" := h, "port" := port];
    assert InfoIntended(t[..1]) == m1;
    var m2 := if Present(e.user).Some? then m1["user" := e.user.value] else m1;
    assert InfoIntended(t[..2]) == m2;
    var m3 := if Present(e.password).Some? then m2["password" := e.password.value] else m2;
    assert InfoIntended(t[..3]) == m3;
  }

  /** With the host compared against "host", a local host with a port
      keeps that port. */
  lemma HostWithPortKept(e: ConnEntries, h: string, port: string)
    requires h == "localhost" || h == "127.0.0.1"
    requires ':' !in port
    requires e.host == Some(h + ":" + port)
    ensures ConnStrIntended(e) == Ok("postgresql://"
                + (if Present(e.user).Some? then e.user.value else "")
                + (if Present(e.password).Some? then ":" + e.password.value else "")
                + ("@" + h) + (":" + port)
                + (if Present(e.dbname).Some? then "/" + e.dbname.value else ""))
  {
    LocalHostSplit(h, port);
    InfoIntendedWithPort(e, h, port);
    var m4 := InfoIntended(Texts(e));
    assert !RemoteHost(m4);
    assert UserPart(m4) == if Present(e.user).Some? then e.user.value else "";
    assert PasswordPart(m4) == if Present(e.password).Some? then ":" + e.password.value else "";
    assert HostPart(m4) == "@" + h && PortPart(m4) == ":" + port;
    assert DbPart(m4) == if Present(e.dbname).Some? then "/" + e.dbname.value else "";
  }

  /** check_entries_clear: true until one of the first three entries holds
      text; the database name is not looked at. */
  method CheckEntriesClear(e: ConnEntries) returns (clear: bool)
    ensures clear <==> Present(e.host).None? && Present(e.user).None? && Present(e.password).None?
  {
    var texts := Texts(e);
    assert texts[0] == e.host && texts[1] == e.user && texts[2] == e.password;
    var i := 0;
    while i < 3
      invariant 0 <= i <= 3
      invariant forall k :: 0 <= k < i ==> Present(texts[k]).None?
    {
      if texts[i].Some? {
        if texts[i].value != "" {
          return false;
        }
      }
      i := i + 1;
    }
    return true;
  }
}
