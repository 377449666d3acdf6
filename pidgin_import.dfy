/**
 * The account-settings mapping of the Pidgin importer
 * (src/empathy-import-dialog.c): reading the `<account>` elements of
 * Pidgin's accounts.xml into a protocol name and a table of Mission
 * Control parameters, and deciding whether an imported account starts
 * ticked in the dialog.
 *
 * The XML document is given as a tree of `Node` values; reading the file
 * is left out, and `g_ascii_strtod` followed by the cast to gint is the
 * parameter `strtod`.
 */
module PidginImport {
  import opened Wrappers

  /** An element: its tag, its text content, its attributes and its child elements. */
  datatype Node = Node(tag: string, content: string, attrs: map<string, string>, children: seq<Node>)

  /** A typed parameter value (a GValue holding a boolean, an int or a string). */
  datatype Value = BoolValue(b: bool) | IntValue(i: int) | StringValue(s: string)

  /** AccountData: the parameters read so far and the protocol, once known. */
  datatype AccountData = AccountData(settings: map<string, Value>, protocol: Option<string>)

  /** A row of pidgin_mc_map: a Pidgin setting of a protocol and its Mission Control name. */
  datatype MapItem = MapItem(protocol: string, pidginName: string, mcName: string)

  const PidginMcMap: seq<MapItem> := [
    MapItem("msn", "server", "server"),
    MapItem("msn", "port", "port"),

    MapItem("jabber", "connect_server", "server"),
    MapItem("jabber", "port", "port"),
    MapItem("jabber", "require_tls", "require-encryption"),
    MapItem("jabber", "old_ssl", "old-ssl"),

    MapItem("aim", "server", "server"),
    MapItem("aim", "port", "port"),

    MapItem("salut", "first", "first-name"),
    MapItem("salut", "last", "last-name"),
    MapItem("salut", "jid", "jid"),
    MapItem("salut", "email", "email"),

    MapItem("groupwise", "server", "server"),
    MapItem("groupwise", "port", "port"),

    MapItem("icq", "server", "server"),
    MapItem("icq", "port", "port"),

    MapItem("irc", "realname", "fullname"),
    MapItem("irc", "ssl", "use-ssl"),
    MapItem("irc", "port", "port"),

    MapItem("yahoo", "server", "server"),
    MapItem("yahoo", "port", "port"),
    MapItem("yahoo", "xfer_port", "xfer-port"),
    MapItem("yahoo", "ignore_invites", "ignore-invites"),
    MapItem("yahoo", "yahoojp", "yahoojp"),
    MapItem("yahoo", "xferjp_host", "xferjp-host"),
    MapItem("yahoo", "serverjp", "serverjp"),
    MapItem("yahoo", "xfer_host", "xfer-host")
  ]

  /* ---------------- The map lookup ---------------- */

  predicate RowMatches(item: MapItem, protocol: string, name: string)
  {
    item.protocol == protocol && item.pidginName == name
  }

  /** The index of the first row at or after `from` matching both protocol and name. */
  function FirstMatch(protocol: string, name: string, from: nat): (r: Option<nat>)
    requires from <= |PidginMcMap|
    ensures r.Some? ==> from <= r.value < |PidginMcMap| && RowMatches(PidginMcMap[r.value], protocol, name)
    ensures forall j | from <= j < (if r.Some? then r.value else |PidginMcMap|) ::
      !RowMatches(PidginMcMap[j], protocol, name)
    decreases |PidginMcMap| - from
  {
    if from == |PidginMcMap| then None
    else if RowMatches(PidginMcMap[from], protocol, name) then Some(from)
    else FirstMatch(protocol, name, from + 1)
  }

  /** The row the lookup picks for a setting `name` of `protocol`, if any. */
  function Lookup(protocol: string, name: string): (r: Option<MapItem>)
    ensures r.Some? ==> r.value in PidginMcMap && RowMatches(r.value, protocol, name)
    ensures r.None? ==> forall i | 0 <= i < |PidginMcMap| :: !RowMatches(PidginMcMap[i], protocol, name)
  {
    match FirstMatch(protocol, name, 0)
    case Some(i) => Some(PidginMcMap[i])
    case None => None
  }

  /** The search loop of import_dialog_pidgin_parse_setting. */
  method FindMapItem(protocol: string, name: string) returns (r: Option<nat>)
    ensures r.Some? ==> r.value < |PidginMcMap| && RowMatches(PidginMcMap[r.value], protocol, name)
    ensures forall j | 0 <= j < (if r.Some? then r.value else |PidginMcMap|) ::
      !RowMatches(PidginMcMap[j], protocol, name)
    ensures r == FirstMatch(protocol, name, 0)
  {
    var i := 0;
    while i < |PidginMcMap|
      invariant 0 <= i <= |PidginMcMap|
      invariant forall j | 0 <= j < i :: !RowMatches(PidginMcMap[j], protocol, name)
      invariant FirstMatch(protocol, name, i) == FirstMatch(protocol, name, 0)
    {
      if PidginMcMap[i].protocol == protocol && PidginMcMap[i].pidginName == name {
        return Some(i);
      }
      i := i + 1;
    }
    return None;
  }

  /** An example: a Jabber "connect_server" setting is Mission Control's "server". */
  lemma LookupJabberServer()
    ensures Lookup("jabber", "connect_server") == Some(MapItem("jabber", "connect_server", "server"))
  {
    assert RowMatches(PidginMcMap[2], "jabber", "connect_server");
    assert FirstMatch("jabber", "connect_server", 0) == Some(2);
  }

  /* ---------------- Settings ---------------- */

  /**
   * The value of a setting of type `kind` with text `content`: only
   * "bool", "int" and "string" give one.
   */
  function TypedValue(kind: Option<string>, content: string, strtod: string -> int): (r: Option<Value>)
    ensures r.Some? <==> kind == Some("bool") || kind == Some("int") || kind == Some("string")
    ensures r.Some? && r.value.BoolValue? ==> kind == Some("bool") && (r.value.b <==> strtod(content) != 0)
    ensures r.Some? && r.value.IntValue? ==> kind == Some("int") && r.value.i == strtod(content)
    ensures r.Some? && r.value.StringValue? ==> kind == Some("string") && r.value.s == content
  {
    if kind == Some("bool") then Some(BoolValue(strtod(content) != 0))
    else if kind == Some("int") then Some(IntValue(strtod(content)))
    else if kind == Some("string") then Some(StringValue(content))
    else None
  }

  /** A Mission Control parameter name some row of the map gives for `protocol`. */
  predicate MappedName(protocol: string, key: string)
  {
    exists i | 0 <= i < |PidginMcMap| :: PidginMcMap[i].protocol == protocol && PidginMcMap[i].mcName == key
  }

  /** import_dialog_pidgin_parse_setting. */
  function ParseSetting(data: AccountData, setting: Node, strtod: string -> int): (r: AccountData)
    ensures r.protocol == data.protocol
    ensures data.protocol.None? || "name" !in setting.attrs ==> r == data
    ensures data.settings.Keys <= r.settings.Keys
    ensures forall k | k in r.settings && (k !in data.settings || r.settings[k] != data.settings[k]) ::
      data.protocol.Some? && MappedName(data.protocol.value, k)
  {
    if data.protocol.None? || "name" !in setting.attrs then data
    else
      var found := FirstMatch(data.protocol.value, setting.attrs["name"], 0);
      if found.None? then data
      else
        var value := TypedValue(if "type" in setting.attrs then Some(setting.attrs["type"]) else None,
                                setting.content, strtod);
        if value.None? then data
        else data.(settings := data.settings[PidginMcMap[found.value].mcName := value.value])
  }

  /**
   * With the protocol known, a named setting is stored, under the Mission
   * Control name of the first matching row, exactly when a row matches
   * and its type gives a value; otherwise nothing changes.
   */
  lemma ParseSettingStores(data: AccountData, setting: Node, strtod: string -> int)
    requires data.protocol.Some? && "name" in setting.attrs
    ensures var item := Lookup(data.protocol.value, setting.attrs["name"]);
      var value := TypedValue(if "type" in setting.attrs then Some(setting.attrs["type"]) else None,
                              setting.content, strtod);
      && (item.None? || value.None? ==> ParseSetting(data, setting, strtod) == data)
      && (item.Some? && value.Some? ==>
            ParseSetting(data, setting, strtod).settings == data.settings[item.value.mcName := value.value])
  {
  }

  /** A later setting stored under the same parameter name replaces the earlier one. */
  lemma LaterSettingWins(data: AccountData, s1: Node, s2: Node, strtod: string -> int)
    requires data.protocol.Some? && "name" in s1.attrs && "name" in s2.attrs
    requires Lookup(data.protocol.value, s1.attrs["name"]).Some?
    requires Lookup(data.protocol.value, s2.attrs["name"]).Some?
    requires Lookup(data.protocol.value, s1.attrs["name"]).value.mcName
          == Lookup(data.protocol.value, s2.attrs["name"]).value.mcName
    requires "type" in s2.attrs && s2.attrs["type"] == "string"
    ensures var key := Lookup(data.protocol.value, s2.attrs["name"]).value.mcName;
      var r := ParseSetting(ParseSetting(data, s1, strtod), s2, strtod);
      key in r.settings && r.settings[key] == StringValue(s2.content)
  {
    ParseSettingStores(ParseSetting(data, s1, strtod), s2, strtod);
  }

  /** The children of a `<settings>` element, applied in document order. */
  function ApplySettings(data: AccountData, settings: seq<Node>, strtod: string -> int): (r: AccountData)
    ensures r.protocol == data.protocol
    ensures data.settings.Keys <= r.settings.Keys
    decreases |settings|
  {
    if settings == [] then data
    else ParseSetting(ApplySettings(data, settings[..|settings| - 1], strtod), settings[|settings| - 1], strtod)
  }

  /** Settings read before the protocol is known are all dropped. */
  lemma {:induction false} SettingsNeedProtocol(data: AccountData, settings: seq<Node>, strtod: string -> int)
    requires data.protocol.None?
    ensures ApplySettings(data, settings, strtod) == data
    decreases |settings|
  {
    if settings != [] {
      SettingsNeedProtocol(data, settings[..|settings| - 1], strtod);
    }
  }

  /** The parse_setting step, with the map search done by the loop. */
  method ApplySetting(data: AccountData, setting: Node, strtod: string -> int) returns (r: AccountData)
    ensures r == ParseSetting(data, setting, strtod)
  {
    if data.protocol.None? || "name" !in setting.attrs {
      return data;
    }
    var found := FindMapItem(data.protocol.value, setting.attrs["name"]);
    if found.None? {
      return data;
    }
    var kind := if "type" in setting.attrs then Some(setting.attrs["type"]) else None;
    var value := TypedValue(kind, setting.content, strtod);
    if value.None? {
      return data;
    }
    r := data.(settings := data.settings[PidginMcMap[found.value].mcName := value.value]);
  }

  /* ---------------- Protocol and name ---------------- */

  predicate HasPrplPrefix(s: string)
  {
    |s| >= 5 && s[..5] == "prpl-"
  }

  /**
   * The Telepathy protocol name for a Pidgin protocol id: without a
   * leading "prpl-", with "bonjour" renamed "salut" and "novell" renamed
   * "groupwise".
   */
  function NormaliseProtocol(p: string): (r: string)
    ensures r != "bonjour" && r != "novell"
    ensures var id := if HasPrplPrefix(p) then p[5..] else p;
      && (id == "bonjour" ==> r == "salut")
      && (id == "novell" ==> r == "groupwise")
      && (id != "bonjour" && id != "novell" ==> r == id && (HasPrplPrefix(p) ==> "prpl-" + r == p))
  {
    var id := if HasPrplPrefix(p) then p[5..] else p;
    if id == "bonjour" then "salut"
    else if id == "novell" then "groupwise"
    else
      assert HasPrplPrefix(p) ==> p == p[..5] + p[5..];
      id
  }

  /** The index of the first `c` in `s`. */
  function IndexOf(s: string, c: char): (r: Option<nat>)
    ensures r.None? <==> c !in s
    ensures r.Some? ==> r.value < |s| && s[r.value] == c && c !in s[..r.value]
  {
    if s == [] then None
    else if s[0] == c then Some(0)
    else
      var rest := IndexOf(s[1..], c);
      if rest.None? then None
      else
        assert s[..rest.value + 1] == [s[0]] + s[1..][..rest.value];
        Some(rest.value + 1)
  }

  /** The user name and, for IRC, the server taken from the `name` element. */
  datatype NameParts = NameParts(account: string, server: Option<string>)

  /**
   * A name "user/resource" gives the account "user"; on an IRC account
   * whose protocol is already known, "nick@server" gives the account
   * "nick" and the server "server", both cut from the full name at its
   * first "@".
   */
  function SplitName(name: string, protocol: Option<string>): (r: NameParts)
    ensures r.server.Some? <==> protocol == Some("irc") && '@' in name
    ensures r.server.Some? ==> r.account + "@" + r.server.value == name && '@' !in r.account
    ensures r.server.None? && '/' in name ==>
      |r.account| < |name| && name[..|r.account|] == r.account && name[|r.account|] == '/' && '/' !in r.account
    ensures r.server.None? && '/' !in name ==> r.account == name
  {
    var at := IndexOf(name, '@');
    if protocol == Some("irc") && at.Some? then
      var i := at.value;
      assert name == name[..i] + "@" + name[i + 1..];
      NameParts(name[..i], Some(name[i + 1..]))
    else
      match IndexOf(name, '/')
      case Some(i) => NameParts(name[..i], None)
      case None => NameParts(name, None)
  }

  /* ---------------- Accounts ---------------- */

  const NoAccount := AccountData(map[], None)

  /** One child element of an `<account>` element. */
  function ApplyChild(data: AccountData, child: Node, strtod: string -> int): (r: AccountData)
    ensures child.tag == "protocol" ==> r == data.(protocol := Some(NormaliseProtocol(child.content)))
    ensures child.tag != "protocol" ==> r.protocol == data.protocol
    ensures child.tag !in {"protocol", "name", "password", "settings"} ==> r == data
    ensures child.tag == "password" ==> r.settings == data.settings["password" := StringValue(child.content)]
    ensures child.tag == "name" ==>
      var parts := SplitName(child.content, data.protocol);
      && "account" in r.settings && r.settings["account"] == StringValue(parts.account)
      && (parts.server.Some? ==> "server" in r.settings && r.settings["server"] == StringValue(parts.server.value))
      && (parts.server.None? ==> r.settings == data.settings["account" := StringValue(parts.account)])
  {
    if child.tag == "protocol" then
      data.(protocol := Some(NormaliseProtocol(child.content)))
    else if child.tag == "name" then
      var parts := SplitName(child.content, data.protocol);
      var withServer := if parts.server.Some? then data.settings["server" := StringValue(parts.server.value)]
                        else data.settings;
      data.(settings := withServer["account" := StringValue(parts.account)])
    else if child.tag == "password" then
      data.(settings := data.settings["password" := StringValue(child.content)])
    else if child.tag == "settings" then
      ApplySettings(data, child.children, strtod)
    else
      data
  }

  /** The children of an `<account>` element, applied in document order. */
  function ParseChildren(children: seq<Node>, strtod: string -> int): AccountData
    decreases |children|
  {
    if children == [] then NoAccount
    else ApplyChild(ParseChildren(children[..|children| - 1], strtod), children[|children| - 1], strtod)
  }

  /**
   * The IRC split depends on order: a `name` child "nick@server" read
   * before the `protocol` child is kept whole, read after it is split.
   */
  lemma IrcSplitNeedsProtocolFirst(nick: string, server: string, strtod: string -> int)
    requires '@' !in nick && '/' !in nick && '/' !in server
    ensures var proto := Node("protocol", "prpl-irc", map[], []);
      var name := Node("name", nick + "@" + server, map[], []);
      var before := ParseChildren([name, proto], strtod);
      var after := ParseChildren([proto, name], strtod);
      && before.settings == map["account" := StringValue(nick + "@" + server)]
      && after.settings == map["server" := StringValue(server), "account" := StringValue(nick)]
      && before.protocol == after.protocol == Some("irc")
  {
    var proto := Node("protocol", "prpl-irc", map[], []);
    var name := Node("name", nick + "@" + server, map[], []);
    assert [name, proto][..1] == [name] && [proto, name][..1] == [proto];
    NormaliseIrc();
    SplitAtFirstAt(nick, server);
    var named := ApplyChild(NoAccount, name, strtod);
    assert ParseChildren([name], strtod) == named;
    assert named.settings == map["account" := StringValue(nick + "@" + server)];
    assert ParseChildren([name, proto], strtod) == ApplyChild(named, proto, strtod);
    var protocolled := ApplyChild(NoAccount, proto, strtod);
    assert ParseChildren([proto], strtod) == protocolled;
    assert protocolled.protocol == Some("irc");
    assert ParseChildren([proto, name], strtod) == ApplyChild(protocolled, name, strtod);
  }

  /** The protocol step of the IRC example below. */
  lemma NormaliseIrc()
    ensures NormaliseProtocol("prpl-irc") == "irc"
  {
    assert HasPrplPrefix("prpl-irc") && "prpl-irc"[5..] == "irc";
  }

  /** "nick@server" splits at its "@" for IRC, and is kept whole otherwise. */
  lemma SplitAtFirstAt(nick: string, server: string)
    requires '@' !in nick && '/' !in nick && '/' !in server
    ensures SplitName(nick + "@" + server, Some("irc")) == NameParts(nick, Some(server))
    ensures SplitName(nick + "@" + server, None) == NameParts(nick + "@" + server, None)
  {
    var s := nick + "@" + server;
    var at := IndexOf(s, '@');
    assert s[|nick|] == '@';
    assert forall i | 0 <= i < |nick| :: s[i] == nick[i];
    assert at.value <= |nick|;
    assert s[..|nick|] == nick && s[|nick| + 1..] == server;
    assert forall i | 0 <= i < |s| :: s[i] != '/' by {
      forall i | 0 <= i < |s|
        ensures s[i] != '/'
      {
        if i > |nick| {
          assert s[i] == server[i - |nick| - 1];
        }
      }
    }
  }

  /** The keep/drop rule: a protocol and at least one parameter. */
  predicate Keep(data: AccountData)
  {
    data.protocol.Some? && |data.settings| > 0
  }

  /** The accounts an import keeps, in document order. */
  function KeptAccounts(nodes: seq<Node>, strtod: string -> int): (r: seq<AccountData>)
    ensures |r| <= |nodes|
    ensures forall i | 0 <= i < |r| :: Keep(r[i])
    decreases |nodes|
  {
    if nodes == [] then []
    else
      var last := nodes[|nodes| - 1];
      var data := ParseChildren(last.children, strtod);
      KeptAccounts(nodes[..|nodes| - 1], strtod) + (if last.tag == "account" && Keep(data) then [data] else [])
  }

  /** Every `<account>` element whose children satisfy the keep rule is imported. */
  lemma {:induction false} KeptAccountsComplete(nodes: seq<Node>, strtod: string -> int, i: nat)
    requires i < |nodes| && nodes[i].tag == "account" && Keep(ParseChildren(nodes[i].children, strtod))
    ensures ParseChildren(nodes[i].children, strtod) in KeptAccounts(nodes, strtod)
    decreases |nodes|
  {
    if i < |nodes| - 1 {
      var front := nodes[..|nodes| - 1];
      assert front[i] == nodes[i];
      KeptAccountsComplete(front, strtod, i);
    }
  }

  /** `s` backwards. */
  function Reverse<T>(s: seq<T>): (r: seq<T>)
    ensures |r| == |s|
    ensures forall i | 0 <= i < |s| :: r[i] == s[|s| - 1 - i]
  {
    if s == [] then [] else [s[|s| - 1]] + Reverse(s[..|s| - 1])
  }

  /** import_dialog_pidgin_parse_setting applied to every child of `<settings>`. */
  method ParseSettingsElement(data: AccountData, settings: seq<Node>, strtod: string -> int) returns (r: AccountData)
    ensures r == ApplySettings(data, settings, strtod)
  {
    r := data;
    for j := 0 to |settings|
      invariant r == ApplySettings(data, settings[..j], strtod)
    {
      assert settings[..j + 1][..j] == settings[..j];
      r := ApplySetting(r, settings[j], strtod);
    }
    assert settings[..|settings|] == settings;
  }

  /** The loop over the children of one `<account>` element. */
  method ParseAccount(account: Node, strtod: string -> int) returns (data: AccountData)
    ensures data == ParseChildren(account.children, strtod)
  {
    var children := account.children;
    data := NoAccount;
    for i := 0 to |children|
      invariant data == ParseChildren(children[..i], strtod)
    {
      ghost var front := children[..i];
      assert children[..i + 1] == front + [children[i]];
      assert (front + [children[i]])[..i] == front;
      data := ReadChild(data, children[i], strtod);
    }
    assert children[..|children|] == children;
  }

  /** One pass of the loop over an `<account>` element's children. */
  method ReadChild(data: AccountData, child: Node, strtod: string -> int) returns (r: AccountData)
    ensures r == ApplyChild(data, child, strtod)
  {
    r := data;
    if child.tag == "protocol" {
      r := data.(protocol := Some(NormaliseProtocol(child.content)));
    } else if child.tag == "name" {
      var parts := SplitName(child.content, data.protocol);
      var settings := data.settings;
      if parts.server.Some? {
        settings := settings["server" := StringValue(parts.server.value)];
      }
      r := data.(settings := settings["account" := StringValue(parts.account)]);
    } else if child.tag == "password" {
      r := data.(settings := data.settings["password" := StringValue(child.content)]);
    } else if child.tag == "settings" {
      r := ParseSettingsElement(data, child.children, strtod);
    }
  }

  /**
   * import_dialog_pidgin_load, from the document's root element (None when
   * the file cannot be read or has no root): the kept accounts, in
   * reverse document order.
   */
  method Load(root: Option<Node>, strtod: string -> int) returns (accounts: seq<AccountData>)
    ensures root.None? ==> accounts == []
    ensures root.Some? ==> accounts == Reverse(KeptAccounts(root.value.children, strtod))
    ensures forall i | 0 <= i < |accounts| :: Keep(accounts[i])
  {
    accounts := [];
    if root.None? {
      return;
    }
    var nodes := root.value.children;
    for i := 0 to |nodes|
      invariant accounts == Reverse(KeptAccounts(nodes[..i], strtod))
    {
      assert nodes[..i + 1] == nodes[..i] + [nodes[i]];
      accounts := LoadOne(nodes[..i], nodes[i], accounts, strtod);
    }
    assert nodes[..|nodes|] == nodes;
  }

  /** One pass of the loop in import_dialog_pidgin_load: the next element of the document. */
  method LoadOne(ghost front: seq<Node>, node: Node, accounts: seq<AccountData>, strtod: string -> int)
    returns (r: seq<AccountData>)
    requires accounts == Reverse(KeptAccounts(front, strtod))
    ensures r == Reverse(KeptAccounts(front + [node], strtod))
  {
    ghost var kept := KeptAccounts(front, strtod);
    KeptAccountsSnoc(front, node, strtod);
    if node.tag != "account" {
      assert KeptAccounts(front + [node], strtod) == kept;
      return accounts;
    }
    var data := ParseAccount(node, strtod);
    if !Keep(data) {
      assert KeptAccounts(front + [node], strtod) == kept;
      return accounts;
    }
    assert KeptAccounts(front + [node], strtod) == kept + [data];
    ReverseSnoc(kept, data);
    r := [data] + accounts;
  }

  /** One more element on the end of the document adds at most its own account. */
  lemma KeptAccountsSnoc(front: seq<Node>, node: Node, strtod: string -> int)
    ensures var data := ParseChildren(node.children, strtod);
      KeptAccounts(front + [node], strtod)
      == KeptAccounts(front, strtod) + (if node.tag == "account" && Keep(data) then [data] else [])
  {
    assert (front + [node])[..|front|] == front;
  }

  /** Reversing a sequence with one more element on the end puts it first. */
  lemma ReverseSnoc<T>(s: seq<T>, x: T)
    ensures Reverse(s + [x]) == [x] + Reverse(s)
  {
    assert (s + [x])[..|s|] == s;
  }

  /* ---------------- The "already exists" filter ---------------- */

  /** The imported user name: the "account" parameter, if it is a string. */
  function UserName(data: AccountData): (r: Option<string>)
    ensures r.Some? <==> "account" in data.settings && data.settings["account"].StringValue?
  {
    if "account" in data.settings && data.settings["account"].StringValue? then
      Some(data.settings["account"].s)
    else
      None
  }

  /**
   * import_dialog_filter_mc_accounts: an existing account's "account"
   * parameter (None when absent) matches only an equal, present user name.
   */
  predicate SameAccount(param: Option<string>, username: Option<string>)
  {
    param.Some? && username.Some? && param.value == username.value
  }

  /** The existing accounts the filter keeps, in order. */
  function Matching(existing: seq<Option<string>>, username: Option<string>): (r: seq<Option<string>>)
    ensures forall i | 0 <= i < |r| :: SameAccount(r[i], username)
    ensures |r| == 0 <==> forall i | 0 <= i < |existing| :: !SameAccount(existing[i], username)
    decreases |existing|
  {
    if existing == [] then []
    else
      var last := existing[|existing| - 1];
      var front := existing[..|existing| - 1];
      assert forall i | 0 <= i < |front| :: front[i] == existing[i];
      Matching(front, username) + (if SameAccount(last, username) then [last] else [])
  }

  /** mc_accounts_filter with import_dialog_filter_mc_accounts. */
  method FilterAccounts(existing: seq<Option<string>>, username: Option<string>)
    returns (matching: seq<Option<string>>)
    ensures matching == Matching(existing, username)
  {
    matching := [];
    for i := 0 to |existing|
      invariant matching == Matching(existing[..i], username)
    {
      assert existing[..i + 1][..i] == existing[..i];
      if existing[i].Some? && username.Some? && existing[i].value == username.value {
        matching := matching + [existing[i]];
      }
    }
    assert existing[..|existing|] == existing;
  }

  /**
   * The import checkbox starts ticked exactly when no existing account
   * has an "account" parameter equal to the imported user name.
   */
  method ImportTicked(data: AccountData, existing: seq<Option<string>>) returns (ticked: bool)
    ensures ticked <==> forall i | 0 <= i < |existing| :: !SameAccount(existing[i], UserName(data))
    ensures UserName(data).None? ==> ticked
  {
    var matching := FilterAccounts(existing, UserName(data));
    ticked := |matching| == 0;
  }
}
