/**
 The catalog of hosted servers entry by entry, which of them is selected, what an edit of the stored list leaves, and which
 credential replies fit a configuration.
 */
module ServerCatalog {
  import opened Basics
  import opened Text
  import opened ClientConfig
  import opened ManagedEdits

  // ----- the catalog -----

  /** A stored server that can be offered. */
  predicate Offered(s: HostedServer) {
    Trim(s.id) != "" && Trim(s.name) != "" && Trim(s.serverAddr) != ""
  }

  /** The entry a stored server is offered as. */
  predicate IsEntryOf(e: HostedServer, s: HostedServer) {
    && e.id == Trim(s.id) && e.name == Trim(s.name) && e.serverAddr == Trim(s.serverAddr)
    && e.tlsEnabled == s.tlsEnabled && e.tlsServerName == Trim(s.tlsServerName) && e.tlsCAFile == Trim(s.tlsCAFile)
  }

  predicate DifferentIDs(servers: seq<HostedServer>) {
    forall i, j :: 0 <= i < j < |servers| ==> servers[i].id != servers[j].id
  }

  lemma {:induction false} DistinctIDs(out: seq<HostedServer>, servers: seq<HostedServer>)
    requires DifferentIDs(out)
    ensures DifferentIDs(Distinct(out, servers))
    decreases |servers|
  {
    if |servers| > 0 {
      if SeenID(out, servers[0].id) {
        DistinctIDs(out, servers[1..]);
      } else {
        DistinctIDs(out + [servers[0]], servers[1..]);
      }
    }
  }

  /** No two listed servers share an ID. */
  lemma ListedIDsDiffer(c: Config)
    ensures DifferentIDs(Listed(c.hostedServers))
  {
    DistinctIDs([], [BuiltInServer()] + NormalizeServers(c.hostedServers));
  }

  lemma {:induction false} DistinctKeeps(out: seq<HostedServer>, servers: seq<HostedServer>, k: nat)
    requires k < |servers| && forall i :: 0 <= i < |out| ==> out[i].id != servers[k].id
    requires forall i :: 0 <= i < k ==> servers[i].id != servers[k].id
    ensures servers[k] in Distinct(out, servers)
    decreases |servers|
  {
    if k == 0 {
      var kept := out + [servers[0]];
      assert kept[|kept| - 1] == servers[0];
      assert kept <= Distinct(out, servers);
      assert Distinct(out, servers)[|kept| - 1] == servers[0];
    } else if SeenID(out, servers[0].id) {
      DistinctKeeps(out, servers[1..], k - 1);
    } else {
      DistinctKeeps(out + [servers[0]], servers[1..], k - 1);
    }
  }

  lemma PrimaryIsFirst(c: Config)
    ensures |Listed(c.hostedServers)| > 0 && Listed(c.hostedServers)[0] == BuiltInServer()
    ensures |Catalog(c)| > 0 && Catalog(c)[0] == BuiltInServer()
  {
    var all := [BuiltInServer()] + NormalizeServers(c.hostedServers);
    assert Distinct([], all) == Distinct([] + [all[0]], all[1..]);
    assert [] + [all[0]] <= Distinct([], all);
    assert Listed(c.hostedServers) <= Catalog(c);
  }

  /** The catalog starts with the built-in server. */
  lemma CatalogStarts(c: Config)
    ensures |Catalog(c)| > 0
    ensures var s := Catalog(c)[0];
            && s.id == "1cat-primary" && s.name == "1Cat 主节点" && s.serverAddr == "dx.1catai.com:50001" && s.tlsEnabled
            && s.tlsServerName == "dx.1catai.com" && s.tlsCAFile == "1cat-tunnel-ca.pem"
  {
    PrimaryIsFirst(c);
  }

  /** Every other entry is a stored server that can be offered, or stands for the current address, which no other entry
      has. */
  lemma CatalogEntries(c: Config, e: HostedServer)
    requires e in Catalog(c)
    ensures || e == Catalog(c)[0]
            || (exists k :: 0 <= k < |c.hostedServers| && Offered(c.hostedServers[k]) && IsEntryOf(e, c.hostedServers[k]))
            || (e == Catalog(c)[|Catalog(c)| - 1] && e.id == "current-custom" && IsCurrent(c, e))
  {
    PrimaryIsFirst(c);
    var listed := Listed(c.hostedServers);
    if e in listed {
      ListedEntry(c.hostedServers, e);
    } else {
      ListedHasIDs(c.hostedServers);
      TrimIsTrimmed(c.serverAddr);
      assert Catalog(c) == listed + [CurrentCustom(c)];
      assert e == CurrentCustom(c);
      forall i | 0 <= i < |Catalog(c)| - 1 ensures !EqualFold(Catalog(c)[i].serverAddr, e.serverAddr) {
        assert Catalog(c)[i] == listed[i];
      }
    }
  }

  predicate IsCurrent(c: Config, e: HostedServer) {
    && e.name == "当前自定义服务器" && e.serverAddr == Trim(c.serverAddr) != "" && e.tlsEnabled == c.tlsEnabled
    && e.tlsServerName == Trim(c.tlsServerName) && e.tlsCAFile == Trim(c.tlsCAFile)
    && forall i :: 0 <= i < |Catalog(c)| - 1 ==> !EqualFold(Catalog(c)[i].serverAddr, e.serverAddr)
  }

  lemma ListedEntry(hosted: seq<HostedServer>, e: HostedServer)
    requires e in Listed(hosted)
    ensures e == BuiltInServer() || exists k :: 0 <= k < |hosted| && Offered(hosted[k]) && IsEntryOf(e, hosted[k])
  {
    var normal := NormalizeServers(hosted);
    var all := [BuiltInServer()] + normal;
    assert e in all;
    if e != BuiltInServer() {
      var i :| 0 <= i < |normal| && normal[i] == e;
      NormalizedElements(CleanServer, UsableServer, hosted, i);
      var k :| 0 <= k < |hosted| && normal[i] == CleanServer(hosted[k]);
      assert UsableServer(normal[i]);
      assert Offered(hosted[k]) && IsEntryOf(e, hosted[k]);
    }
  }

  /** A stored server that can be offered is in the catalog, unless an earlier entry has its ID. */
  lemma CatalogOffers(c: Config, k: nat)
    requires k < |c.hostedServers| && Offered(c.hostedServers[k])
    requires Trim(c.hostedServers[k].id) != "1cat-primary"
    requires forall i :: 0 <= i < k ==> Trim(c.hostedServers[i].id) != Trim(c.hostedServers[k].id)
    ensures exists e :: e in Catalog(c) && IsEntryOf(e, c.hostedServers[k])
  {
    var hosted := c.hostedServers;
    var e := CleanServer(hosted[k]);
    var front, normal := NormalizeServers(hosted[..k]), NormalizeServers(hosted);
    var all := [BuiltInServer()] + normal;
    NormalIndex(hosted, k);
    forall i | 0 <= i < |front| ensures front[i].id != e.id {
      NormalizedElements(CleanServer, UsableServer, hosted[..k], i);
      var j :| 0 <= j < k && front[i] == CleanServer(hosted[..k][j]);
      assert hosted[..k][j] == hosted[j];
    }
    assert all[|front| + 1] == e;
    forall i | 0 <= i < |front| + 1 ensures all[i].id != all[|front| + 1].id {
      if i > 0 {
        assert all[i] == front[i - 1];
      }
    }
    DistinctKeeps([], all, |front| + 1);
    assert e in Catalog(c) && IsEntryOf(e, hosted[k]);
  }

  lemma NormalIndex(hosted: seq<HostedServer>, k: nat)
    requires k < |hosted| && Offered(hosted[k])
    ensures var front, normal := NormalizeServers(hosted[..k]), NormalizeServers(hosted);
            |front| < |normal| && front <= normal && normal[|front|] == CleanServer(hosted[k])
  {
    var x := CleanServer(hosted[k]);
    assert hosted == hosted[..k] + hosted[k..];
    NormalizedConcat(CleanServer, UsableServer, hosted[..k], hosted[k..]);
    assert UsableServer(x);
    assert NormalizeServers(hosted[k..])[0] == x;
  }

  /** The address in use is in the catalog. */
  lemma CatalogHasCurrent(c: Config)
    requires Trim(c.serverAddr) != ""
    ensures exists i :: 0 <= i < |Catalog(c)| && EqualFold(Catalog(c)[i].serverAddr, Trim(c.serverAddr))
  {
    var listed := Listed(c.hostedServers);
    if IDForAddress(listed, Trim(c.serverAddr)) == "" {
      assert Catalog(c)[|listed|] == CurrentCustom(c);
    } else {
      var i :| 0 <= i < |listed| && EqualFold(listed[i].serverAddr, Trim(c.serverAddr));
      assert Catalog(c)[i] == listed[i];
    }
  }

  // ----- the selection -----

  lemma {:induction false} FirstAtAddress(servers: seq<HostedServer>, address: string, k: nat)
    requires k < |servers| && EqualFold(servers[k].serverAddr, address)
    requires forall i :: 0 <= i < k ==> !EqualFold(servers[i].serverAddr, address)
    ensures IDForAddress(servers, address) == servers[k].id
  {
    if k > 0 {
      FirstAtAddress(servers[1..], address, k - 1);
    }
  }

  /** The stored selection counts if it is in the catalog with the address in use. */
  lemma StoredSelectionCounts(c: Config, k: nat)
    requires k < |Catalog(c)| && Catalog(c)[k].id == Trim(c.selectedServerID) != ""
    requires EqualFold(Catalog(c)[k].serverAddr, Trim(c.serverAddr))
    ensures SelectedID(c) == Trim(c.selectedServerID)
  {
    assert HasSelection(Catalog(c), Trim(c.selectedServerID), Trim(c.serverAddr));
  }

  /** Otherwise the first entry with the address in use is selected, and the first of all without one. */
  lemma SelectionByAddress(c: Config, k: nat)
    requires forall i :: 0 <= i < |Catalog(c)| && Catalog(c)[i].id == Trim(c.selectedServerID) != "" ==>
               !EqualFold(Catalog(c)[i].serverAddr, Trim(c.serverAddr))
    requires k < |Catalog(c)| && forall i :: 0 <= i < k ==> !EqualFold(Catalog(c)[i].serverAddr, Trim(c.serverAddr))
    requires || EqualFold(Catalog(c)[k].serverAddr, Trim(c.serverAddr))
             || (k == 0 && forall i :: 0 <= i < |Catalog(c)| ==> !EqualFold(Catalog(c)[i].serverAddr, Trim(c.serverAddr)))
    ensures SelectedID(c) == Catalog(c)[k].id
  {
    CatalogHasIDs(c);
    if EqualFold(Catalog(c)[k].serverAddr, Trim(c.serverAddr)) {
      FirstAtAddress(Catalog(c), Trim(c.serverAddr), k);
      assert Entry(Catalog(c)[k]);
    }
  }

  // ----- edits of the stored list -----

  lemma {:induction false} RemovesFirst(servers: seq<HostedServer>, id: string, k: nat)
    requires k < |servers| && servers[k].id == id && forall i :: 0 <= i < k ==> servers[i].id != id
    ensures RemoveFirst(servers, id) == Some(servers[..k] + servers[k + 1..])
  {
    if k > 0 {
      RemovesFirst(servers[1..], id, k - 1);
      assert servers[1..][..k - 1] == servers[1..k] && servers[1..][k..] == servers[k + 1..];
      assert [servers[0]] + (servers[1..k] + servers[k + 1..]) == servers[..k] + servers[k + 1..];
    } else {
      assert servers[..0] + servers[1..] == servers[1..];
    }
  }

  lemma {:induction false} RemovesNone(servers: seq<HostedServer>, id: string)
    requires forall i :: 0 <= i < |servers| ==> servers[i].id != id
    ensures RemoveFirst(servers, id) == None
  {
    if |servers| > 0 {
      RemovesNone(servers[1..], id);
    }
  }

  /** Removing a stored server that is not selected takes out the first one with its ID; the others stay, in order. */
  lemma RemovalLeavesOthers(env: Environment, c: Config, id: string, k: nat)
    requires id != SelectedID(c)
    requires k < |c.hostedServers| && c.hostedServers[k].id == id
    requires forall i :: 0 <= i < k ==> c.hostedServers[i].id != id
    ensures EditServers(env, c, RemoveServer(id))
            == Some(c.(hostedServers := c.hostedServers[..k] + c.hostedServers[k + 1..]))
  {
    RemovesFirst(c.hostedServers, id, k);
  }

  /** The selected server cannot be removed, nor one that is not stored. */
  lemma RemovalIsRefused(env: Environment, c: Config, id: string)
    requires id == SelectedID(c) || forall i :: 0 <= i < |c.hostedServers| ==> c.hostedServers[i].id != id
    ensures EditServers(env, c, RemoveServer(id)) == None
  {
    if id != SelectedID(c) {
      RemovesNone(c.hostedServers, id);
    }
  }

  /** A new server's name in its certificate: the one given, or else the host of its address. */
  function CertificateName(env: Environment, address: string, name: string): string {
    match env.hostOfControlAddress(Trim(address))
    case None => Trim(name)
    case Some(host) => if Trim(name) == "" then host else Trim(name)
  }

  predicate IsNewServer(env: Environment, c: Config, name: string, address: string, tlsName: string) {
    && 1 <= |Trim(name)| <= 128 && |c.hostedServers| < 32
    && (match env.hostOfControlAddress(Trim(address))
        case None => false
        case Some(host) => env.isHost(host))
    && env.isHost(CertificateName(env, address, tlsName))
    && forall i :: 0 <= i < |Catalog(c)| && EqualFold(Catalog(c)[i].serverAddr, Trim(address)) ==>
         !EqualFold(Catalog(c)[i].tlsServerName, CertificateName(env, address, tlsName))
  }

  /** A server is added exactly if it has a name, a proper address, a certificate name, room in the list, and no entry of
      the catalog has both its address and its certificate name; it comes last, with TLS. */
  lemma AdditionComesLast(env: Environment, c: Config, name: string, address: string, tlsName: string)
    ensures var r, t := EditServers(env, c, AddServer(name, address, tlsName)), CertificateName(env, address, tlsName);
            if IsNewServer(env, c, name, address, tlsName) then
              r == Some(c.(hostedServers := c.hostedServers + [
                HostedServer("custom-" + env.digest(Lower(Trim(address) + "|" + t)), Trim(name), Trim(address), true, t, "")]))
            else r == None
  {
  }

  // ----- replies -----

  /** A reply to a session fits as long as the server, the node name and the token are the session's, whatever else was
      changed. */
  lemma ReplyFitsUnchanged(source: Config, c: Config)
    requires EqualFold(Trim(source.serverAddr), Trim(c.serverAddr)) && source.tlsEnabled == c.tlsEnabled
    requires EqualFold(Trim(source.tlsServerName), Trim(c.tlsServerName))
    requires EqualFold(Trim(source.tlsCAFile), Trim(c.tlsCAFile))
    requires source.nodeName == c.nodeName && source.token == c.token
    ensures ReplyApplies(source, c)
  {
  }

  /** It does not fit a configuration that differs in any of these. */
  lemma ReplyToChangedIsDropped(source: Config, c: Config)
    requires || !EqualFold(Trim(source.serverAddr), Trim(c.serverAddr)) || source.tlsEnabled != c.tlsEnabled
             || !EqualFold(Trim(source.tlsServerName), Trim(c.tlsServerName))
             || !EqualFold(Trim(source.tlsCAFile), Trim(c.tlsCAFile))
             || source.nodeName != c.nodeName || source.token != c.token
    ensures !ReplyApplies(source, c)
  {
  }
}
