/** wallet_service.py: the deposit addresses handed out to users, and the checks made on them at start-up. */
module Routes {
  import opened Tables

  datatype Family = Bitcoin | Litecoin | Ethereum | Solana

  /** One wallet_addresses row; raw is the decrypted address, "" marks a missing fingerprint or provider identity. */
  datatype Route = Route(user: int, asset: Asset, family: Family, raw: string, fingerprint: string, origin: string,
                         ref: string)

  /** Address normalization (None when it raises) and the SHA-256 fingerprint of a normalized address. */
  datatype Env = Env(normalize: (Family, string) -> Option<string>, digest: (Family, string) -> string)

  datatype Parsed = Parsed(address: string, fingerprint: string)

  /** _parsed_route_row; None when it raises. */
  function Parse(env: Env, row: Route): Option<Parsed> {
    if row.raw == "" then None
    else match env.normalize(row.family, row.raw)
      case None => None
      case Some(address) =>
        var fingerprint := env.digest(row.family, address);
        if row.fingerprint != "" && row.fingerprint != fingerprint then None else Some(Parsed(address, fingerprint))
  }

  ghost predicate AllParse(env: Env, rows: seq<Route>) {
    forall i :: 0 <= i < |rows| ==> Parse(env, rows[i]).Some?
  }

  /** Two rows may share a route: same user, and same asset or the pair that lives on one Ethereum address. */
  predicate MayShare(family: Family, a: Route, b: Route) {
    a.user == b.user && (a.asset == b.asset || (family == Ethereum && a.asset in {ETH, USDT} && b.asset in {ETH, USDT}))
  }

  predicate SameRoute(env: Env, a: Route, b: Route)
    requires Parse(env, a).Some? && Parse(env, b).Some?
  {
    a.family == b.family && Parse(env, a).value.fingerprint == Parse(env, b).value.fingerprint
  }

  predicate SameProvider(a: Route, b: Route) {
    a.origin != "" && a.ref != "" && a.origin == b.origin && a.ref == b.ref
  }

  predicate Conflict(env: Env, a: Route, b: Route)
    requires Parse(env, a).Some? && Parse(env, b).Some?
  {
    || (SameRoute(env, a, b) && !MayShare(a.family, a, b))
    || (SameProvider(a, b) && (a.user != b.user || Parse(env, a).value.fingerprint != Parse(env, b).value.fingerprint))
  }

  /** What the check is for: every row parses, and no two rows conflict. */
  ghost predicate Sound(env: Env, rows: seq<Route>) {
    AllParse(env, rows) && forall i, j :: 0 <= i < j < |rows| ==> !Conflict(env, rows[i], rows[j])
  }

  /** Missing fingerprints are filled in. */
  function Backfilled(env: Env, rows: seq<Route>): (r: seq<Route>)
    ensures |r| == |rows|
  {
    seq(|rows|, i requires 0 <= i < |rows| =>
      if Parse(env, rows[i]).Some? && rows[i].fingerprint == ""
        then rows[i].(fingerprint := Parse(env, rows[i]).value.fingerprint) else rows[i])
  }

  /** Rows that share a route stay shareable with everyone the earlier one shares it with. */
  lemma MayShareTransitive(family: Family, a: Route, b: Route, c: Route)
    requires MayShare(family, a, b) && MayShare(family, b, c)
    ensures MayShare(family, a, c)
  {
  }

  function RouteKey(row: Route, p: Parsed): (Family, string) {
    (row.family, p.fingerprint)
  }

  predicate HasProvider(row: Route) {
    row.origin != "" && row.ref != ""
  }

  /** What the single pass keeps: for each key one earlier row, which may share with all earlier rows of that key. */
  ghost predicate RoutesSeen(rows: seq<Route>, ps: seq<Parsed>, seen: map<(Family, string), nat>)
    requires |ps| <= |rows|
  {
    && (forall k :: k in seen ==> seen[k] < |ps| && RouteKey(rows[seen[k]], ps[seen[k]]) == k)
    && (forall i :: 0 <= i < |ps| ==>
        RouteKey(rows[i], ps[i]) in seen && MayShare(rows[i].family, rows[i], rows[seen[RouteKey(rows[i], ps[i])]]))
  }

  predicate SameOwner(rows: seq<Route>, ps: seq<Parsed>, i: nat, j: nat)
    requires i < |ps| <= |rows| && j < |ps|
  {
    rows[i].user == rows[j].user && ps[i].fingerprint == ps[j].fingerprint
  }

  ghost predicate ProvidersSeen(rows: seq<Route>, ps: seq<Parsed>, seen: map<(string, string), nat>)
    requires |ps| <= |rows|
  {
    && (forall k :: k in seen ==>
        seen[k] < |ps| && HasProvider(rows[seen[k]]) && (rows[seen[k]].origin, rows[seen[k]].ref) == k)
    && (forall i :: 0 <= i < |ps| && HasProvider(rows[i]) ==>
          (rows[i].origin, rows[i].ref) in seen && SameOwner(rows, ps, i, seen[(rows[i].origin, rows[i].ref)]))
  }

  ghost predicate ParsedSoFar(env: Env, rows: seq<Route>, ps: seq<Parsed>) {
    |ps| <= |rows| && forall i :: 0 <= i < |ps| ==> Parse(env, rows[i]) == Some(ps[i])
  }

  ghost predicate NoConflicts(env: Env, rows: seq<Route>, n: nat) {
    && n <= |rows| && (forall i :: 0 <= i < n ==> Parse(env, rows[i]).Some?)
    && (forall i, j :: 0 <= i < j < n ==> !Conflict(env, rows[i], rows[j]))
  }

  /** The next row was compared with the remembered ones and found compatible. */
  ghost predicate ComparedOk(rows: seq<Route>, ps: seq<Parsed>, routes: map<(Family, string), nat>,
    providers: map<(string, string), nat>, p: Parsed)
    requires |ps| < |rows| && RoutesSeen(rows, ps, routes) && ProvidersSeen(rows, ps, providers)
  {
    var row := rows[|ps|];
    && (RouteKey(row, p) in routes ==> MayShare(row.family, rows[routes[RouteKey(row, p)]], row))
    && (HasProvider(row) && (row.origin, row.ref) in providers ==>
          var prior := providers[(row.origin, row.ref)];
            rows[prior].user == row.user && ps[prior].fingerprint == p.fingerprint)
  }

  /** Comparing with the remembered row is as good as comparing with every earlier row. */
  lemma OneComparison(env: Env, rows: seq<Route>, ps: seq<Parsed>, routes: map<(Family, string), nat>,
    providers: map<(string, string), nat>, p: Parsed)
    requires ParsedSoFar(env, rows, ps) && RoutesSeen(rows, ps, routes) && ProvidersSeen(rows, ps, providers)
    requires |ps| < |rows| && Parse(env, rows[|ps|]) == Some(p) && NoConflicts(env, rows, |ps|)
    requires ComparedOk(rows, ps, routes, providers, p)
    ensures NoConflicts(env, rows, |ps| + 1)
  {
    hide Parse;
    var n, row := |ps|, rows[|ps|];
    forall i | 0 <= i < n
      ensures !Conflict(env, rows[i], row)
    {
      assert RouteKey(rows[i], ps[i]) in routes;
      if RouteKey(rows[i], ps[i]) == RouteKey(row, p) {
        MayShareTransitive(row.family, rows[i], rows[routes[RouteKey(row, p)]], row);
      }
      if HasProvider(rows[i]) && SameProvider(rows[i], row) {
        assert SameOwner(rows, ps, i, providers[(row.origin, row.ref)]);
      }
    }
  }

  lemma RoutesRemembered(rows: seq<Route>, ps: seq<Parsed>, routes: map<(Family, string), nat>, p: Parsed)
    requires |ps| < |rows| && RoutesSeen(rows, ps, routes)
    requires RouteKey(rows[|ps|], p) in routes ==>
             MayShare(rows[|ps|].family, rows[routes[RouteKey(rows[|ps|], p)]], rows[|ps|])
    ensures RoutesSeen(rows, ps + [p], routes[RouteKey(rows[|ps|], p) := |ps|])
  {
    var n, row, all := |ps|, rows[|ps|], ps + [p];
    hide MayShare;
    forall i | 0 <= i < n && RouteKey(rows[i], ps[i]) == RouteKey(row, p)
      ensures MayShare(row.family, rows[i], row)
    {
      MayShareTransitive(row.family, rows[i], rows[routes[RouteKey(row, p)]], row);
    }
    ShareWithSelf(row);
    assert forall i :: 0 <= i < n ==> all[i] == ps[i];
  }

  lemma ShareWithSelf(row: Route)
    ensures MayShare(row.family, row, row)
  {
  }

  lemma ProvidersRemembered(rows: seq<Route>, ps: seq<Parsed>, providers: map<(string, string), nat>, p: Parsed)
    requires |ps| < |rows| && ProvidersSeen(rows, ps, providers)
    requires var row := rows[|ps|];
             HasProvider(row) && (row.origin, row.ref) in providers ==>
               var prior := providers[(row.origin, row.ref)];
                 rows[prior].user == row.user && ps[prior].fingerprint == p.fingerprint
    ensures var row := rows[|ps|];
            ProvidersSeen(rows, ps + [p], if HasProvider(row) then providers[(row.origin, row.ref) := |ps|]
                          else providers)
  {
    var all := ps + [p];
    assert forall i :: 0 <= i < |ps| ==> all[i] == ps[i];
    forall i | 0 <= i < |ps| && HasProvider(rows[i])
      ensures SameOwner(rows, ps, i, providers[(rows[i].origin, rows[i].ref)])
    {
    }
  }

  /** The state of the single pass after |ps| rows. */
  ghost predicate Passed(env: Env, rows: seq<Route>, ps: seq<Parsed>, routes: map<(Family, string), nat>,
                         providers: map<(string, string), nat>)
  {
    && ParsedSoFar(env, rows, ps) && NoConflicts(env, rows, |ps|)
    && RoutesSeen(rows, ps, routes) && ProvidersSeen(rows, ps, providers)
  }

  lemma PassedStep(env: Env, rows: seq<Route>, ps: seq<Parsed>, routes: map<(Family, string), nat>,
    providers: map<(string, string), nat>, p: Parsed)
    requires Passed(env, rows, ps, routes, providers) && |ps| < |rows| && Parse(env, rows[|ps|]) == Some(p)
    requires ComparedOk(rows, ps, routes, providers, p)
    ensures var row := rows[|ps|];
            Passed(env, rows, ps + [p], routes[RouteKey(row, p) := |ps|],
                   if HasProvider(row) then providers[(row.origin, row.ref) := |ps|] else providers)
  {
    OneComparison(env, rows, ps, routes, providers, p);
    RoutesRemembered(rows, ps, routes, p);
    ProvidersRemembered(rows, ps, providers, p);
    hide Parse, RoutesSeen, ProvidersSeen, Conflict;
  }

  class RouteTable {
    var rows: seq<Route>

    constructor ()
      ensures rows == []
    {
      rows := [];
    }

    /** ensure_wallet_route_integrity: one pass over the rows, false where the source raises. */
    method EnsureWalletRouteIntegrity(env: Env) returns (ok: bool)
      modifies this
      ensures ok <==> Sound(env, old(rows))
      ensures rows == if ok then Backfilled(env, old(rows)) else old(rows)
    {
      hide Parse, Passed, MayShare, Backfilled, Sound;
      var routes: map<(Family, string), nat> := map[];
      var providers: map<(string, string), nat> := map[];
      var ps: seq<Parsed> := [];
      NothingPassed(env, rows);
      for i := 0 to |rows|
        invariant |ps| == i && rows == old(rows) && Passed(env, rows, ps, routes, providers)
      {
        var row := rows[i];
        var parsed := Parse(env, row);
        if parsed.None? {
          Unparsed(env, rows, i);
          return false;
        }
        var p := parsed.value;
        SeenInRange(env, rows, ps, routes, providers);
        if RouteKey(row, p) in routes {
          var prior := rows[routes[RouteKey(row, p)]];
          var allowedShared := row.family == Ethereum && prior.user == row.user && prior.asset in {ETH, USDT} &&
            row.asset in {ETH, USDT};
          if !allowedShared && (prior.user != row.user || prior.asset != row.asset) {
            RouteConflict(env, rows, ps, routes, providers, p);
            return false;
          }
          SharedOk(row.family, prior, row);
        }
        if HasProvider(row) && (row.origin, row.ref) in providers {
          var prior := providers[(row.origin, row.ref)];
          if rows[prior].user != row.user || ps[prior].fingerprint != p.fingerprint {
            ProviderConflict(env, rows, ps, routes, providers, p);
            return false;
          }
        }
        PassedStep(env, rows, ps, routes, providers, p);
        routes := routes[RouteKey(row, p) := i];
        if HasProvider(row) {
          providers := providers[(row.origin, row.ref) := i];
        }
        ps := ps + [p];
      }
      AllPassed(env, rows, ps, routes, providers);
      rows := Backfilled(env, rows);
      return true;
    }

    /** monitored_deposit_address_map; None where the source raises. */
    method MonitoredDepositAddressMap(env: Env, assets: set<Asset>) returns (out: Option<map<string, int>>)
      ensures var watched := Monitored(rows, assets);
              && (out.Some? <==> AllParse(env, watched) && NoCollision(env, watched))
              && (out.Some? ==> out.value == AddressMap(env, watched))
    {
      hide Parse;
      var watched := Monitored(rows, assets);
      var owners: map<string, int> := map[];
      var seen: map<(Family, string), int> := map[];
      for i := 0 to |watched|
        invariant AllParse(env, watched[..i]) && NoCollision(env, watched[..i])
        invariant OwnersSeen(env, watched[..i], seen) && owners == AddressMap(env, watched[..i])
      {
        var row := watched[i];
        var parsed := Parse(env, row);
        assert watched[..i + 1] == watched[..i] + [row];
        if parsed.None? {
          assert Parse(env, watched[i]).None?;
          return None;
        }
        var key := (row.family, parsed.value.address);
        if key in seen && seen[key] != row.user {
          SeenCollides(env, watched, i, seen);
          return None;
        }
        OwnersStep(env, watched[..i], row, seen);
        seen := seen[key := row.user];
        owners := owners[parsed.value.address := row.user];
      }
      assert watched[..|watched|] == watched;
      return Some(owners);
    }
  }

  /** Filling in fingerprints changes nothing about what the check says. */
  lemma BackfillKeepsSound(env: Env, rows: seq<Route>)
    requires Sound(env, rows)
    ensures Sound(env, Backfilled(env, rows))
    ensures Backfilled(env, Backfilled(env, rows)) == Backfilled(env, rows)
  {
    var filled := Backfilled(env, rows);
    assert forall i :: 0 <= i < |rows| ==>
      Parse(env, filled[i]) == Parse(env, rows[i]) && filled[i] == rows[i].(fingerprint := filled[i].fingerprint);
    forall i, j | 0 <= i < j < |rows| ensures !Conflict(env, filled[i], filled[j]) {
      assert !Conflict(env, rows[i], rows[j]);
    }
  }

  // ----- the monitored map

  /** The routes of the watched assets, in table order. */
  function Monitored(rows: seq<Route>, assets: set<Asset>): (m: seq<Route>)
    ensures forall row :: row in m <==> row in rows && row.asset in assets
  {
    if rows == [] then []
    else Monitored(rows[..|rows| - 1], assets) + if rows[|rows| - 1].asset in assets then [rows[|rows| - 1]] else []
  }

  function Address(env: Env, row: Route): string {
    var parsed := Parse(env, row);
    if parsed.Some? then parsed.value.address else ""
  }

  /** No route of one chain family belongs to two users. */
  ghost predicate NoCollision(env: Env, rows: seq<Route>) {
    forall a, b :: a in rows && b in rows && a.family == b.family && Address(env, a) == Address(env, b) ==>
      a.user == b.user
  }

  /** Later rows overwrite earlier ones. */
  function AddressMap(env: Env, rows: seq<Route>): map<string, int> {
    if rows == [] then map[]
    else AddressMap(env, rows[..|rows| - 1])[Address(env, rows[|rows| - 1]) := rows[|rows| - 1].user]
  }

  ghost predicate OwnersSeen(env: Env, rows: seq<Route>, seen: map<(Family, string), int>) {
    && (forall row :: row in rows ==>
        (row.family, Address(env, row)) in seen && seen[(row.family, Address(env, row))] == row.user)
    && (forall k :: k in seen ==>
        exists row :: row in rows && (row.family, Address(env, row)) == k && seen[k] == row.user)
  }

  lemma OwnersStep(env: Env, rows: seq<Route>, row: Route, seen: map<(Family, string), int>)
    requires AllParse(env, rows) && NoCollision(env, rows) && OwnersSeen(env, rows, seen) && Parse(env, row).Some?
    requires var key := (row.family, Address(env, row)); key in seen ==> seen[key] == row.user
    ensures AllParse(env, rows + [row]) && NoCollision(env, rows + [row])
    ensures OwnersSeen(env, rows + [row], seen[(row.family, Address(env, row)) := row.user])
    ensures AddressMap(env, rows + [row]) == AddressMap(env, rows)[Address(env, row) := row.user]
  {
    hide Parse, Address;
    SeenStep(env, rows, row, seen);
    hide OwnersSeen;
    NoCollisionStep(env, rows, row, seen);
    hide NoCollision;
    assert (rows + [row])[..|rows|] == rows;
  }

  lemma NoCollisionStep(env: Env, rows: seq<Route>, row: Route, seen: map<(Family, string), int>)
    requires NoCollision(env, rows) && OwnersSeen(env, rows, seen)
    requires var key := (row.family, Address(env, row)); key in seen ==> seen[key] == row.user
    ensures NoCollision(env, rows + [row])
  {
    hide Address;
  }

  lemma SeenStep(env: Env, rows: seq<Route>, row: Route, seen: map<(Family, string), int>)
    requires OwnersSeen(env, rows, seen)
    requires var key := (row.family, Address(env, row)); key in seen ==> seen[key] == row.user
    ensures OwnersSeen(env, rows + [row], seen[(row.family, Address(env, row)) := row.user])
  {
    hide Address;
    var key, all := (row.family, Address(env, row)), rows + [row];
    var next := seen[key := row.user];
    forall k | k in next
      ensures exists r :: r in all && (r.family, Address(env, r)) == k && next[k] == r.user
    {
      if k == key {
        assert row in all;
      } else {
        var r :| r in rows && (r.family, Address(env, r)) == k && seen[k] == r.user;
        assert r in all;
      }
    }
  }

  lemma SeenCollides(env: Env, rows: seq<Route>, i: nat, seen: map<(Family, string), int>)
    requires i < |rows| && OwnersSeen(env, rows[..i], seen)
    requires var key := (rows[i].family, Address(env, rows[i])); key in seen && seen[key] != rows[i].user
    ensures !NoCollision(env, rows)
  {
    hide Parse, Address;
    var key := (rows[i].family, Address(env, rows[i]));
    var row :| row in rows[..i] && (row.family, Address(env, row)) == key && seen[key] == row.user;
    assert row in rows && rows[i] in rows;
  }

  lemma {:induction false} MapKnows(env: Env, rows: seq<Route>, address: string)
    ensures address in AddressMap(env, rows) <==> exists row :: row in rows && Address(env, row) == address
    ensures address in AddressMap(env, rows) ==>
              exists row :: row in rows && Address(env, row) == address && AddressMap(env, rows)[address] == row.user
  {
    hide Parse, Address;
    if rows != [] {
      var n := |rows| - 1;
      MapKnows(env, rows[..n], address);
      assert rows == rows[..n] + [rows[n]];
      if Address(env, rows[n]) == address {
        assert rows[n] in rows;
      } else if row :|
        row in rows[..n] && Address(env, row) == address && AddressMap(env, rows[..n])[address] == row.user
      {
        assert row in rows;
      }
    }
  }

  /** The map gives every watched row its own user exactly when no address text belongs to two users. */
  lemma MapFaithfulIff(env: Env, rows: seq<Route>)
    ensures (forall row :: row in rows ==>
             Address(env, row) in AddressMap(env, rows) && AddressMap(env, rows)[Address(env, row)] == row.user)
       <==> (forall a, b :: a in rows && b in rows && Address(env, a) == Address(env, b) ==> a.user == b.user)
  {
    hide Parse, Address;
    forall row | row in rows
      ensures Address(env, row) in AddressMap(env, rows)
      ensures exists r ::
              r in rows && Address(env, r) == Address(env, row) && AddressMap(env, rows)[Address(env, row)] == r.user
    {
      MapKnows(env, rows, Address(env, row));
    }
  }

  /** The watched assets all live on one chain family. */
  ghost predicate OneFamily(rows: seq<Route>) {
    forall a, b :: a in rows && b in rows ==> a.family == b.family
  }

  lemma WatchedIsSound(env: Env, rows: seq<Route>, assets: set<Asset>)
    requires Sound(env, rows) && OneFamily(Monitored(rows, assets))
    ensures AllParse(env, Monitored(rows, assets))
    ensures var watched := Monitored(rows, assets);
            forall a, b :: a in watched && b in watched && Address(env, a) == Address(env, b) ==> a.user == b.user
  {
    var watched := Monitored(rows, assets);
    assert forall i :: 0 <= i < |watched| ==> watched[i] in rows;
    forall a, b | a in watched && b in watched && Address(env, a) == Address(env, b)
      ensures a.user == b.user
    {
      var i :| 0 <= i < |rows| && rows[i] == a;
      var j :| 0 <= j < |rows| && rows[j] == b;
      if i < j {
        assert !Conflict(env, rows[i], rows[j]);
      } else if j < i {
        assert !Conflict(env, rows[j], rows[i]);
      }
    }
  }

  /**
   On a table that passed the check, watching assets of one chain family never raises, sends each address
   to the one user who owns it, and gives the same map whatever order the rows come in.
   */
  lemma MonitoredMapIsFaithful(env: Env, rows: seq<Route>, other: seq<Route>, assets: set<Asset>)
    requires Sound(env, rows) && OneFamily(Monitored(rows, assets))
    requires forall row :: row in other <==> row in rows
    ensures var watched := Monitored(rows, assets);
            && AllParse(env, watched) && NoCollision(env, watched)
            && (forall row :: row in watched ==>
                  Address(env, row) in AddressMap(env, watched) &&
                    AddressMap(env, watched)[Address(env, row)] == row.user)
            && (forall address :: address in AddressMap(env, watched) ==>
                exists row :: row in watched && Address(env, row) == address)
            && AddressMap(env, Monitored(other, assets)) == AddressMap(env, watched)
  {
    hide Parse, Address, AddressMap, Conflict;
    var watched, shuffled := Monitored(rows, assets), Monitored(other, assets);
    WatchedIsSound(env, rows, assets);
    MapFaithfulIff(env, watched);
    MapFaithfulIff(env, shuffled);
    assert forall row :: row in shuffled <==> row in watched;
    forall address: string
      ensures address in AddressMap(env, watched) <==> address in AddressMap(env, shuffled)
      ensures address in AddressMap(env, watched) ==>
              AddressMap(env, watched)[address] == AddressMap(env, shuffled)[address]
      ensures address in AddressMap(env, watched) ==> exists row :: row in watched && Address(env, row) == address
    {
      MapKnows(env, watched, address);
      MapKnows(env, shuffled, address);
    }
  }

  lemma NothingPassed(env: Env, rows: seq<Route>)
    ensures Passed(env, rows, [], map[], map[])
  {
  }

  lemma AllPassed(env: Env, rows: seq<Route>, ps: seq<Parsed>, routes: map<(Family, string), nat>,
                  providers: map<(string, string), nat>)
    requires Passed(env, rows, ps, routes, providers) && |ps| == |rows|
    ensures Sound(env, rows)
  {
    hide Parse, Conflict, RoutesSeen, ProvidersSeen;
  }

  lemma Unparsed(env: Env, rows: seq<Route>, i: nat)
    requires i < |rows| && Parse(env, rows[i]).None?
    ensures !Sound(env, rows)
  {
  }

  lemma SeenInRange(env: Env, rows: seq<Route>, ps: seq<Parsed>, routes: map<(Family, string), nat>,
                    providers: map<(string, string), nat>)
    requires Passed(env, rows, ps, routes, providers)
    ensures |ps| <= |rows| && RoutesSeen(rows, ps, routes) && ProvidersSeen(rows, ps, providers)
    ensures forall k :: k in routes ==> routes[k] < |ps|
    ensures forall k :: k in providers ==> providers[k] < |ps|
  {
  }

  lemma SharedOk(family: Family, prior: Route, row: Route)
    requires || (family == Ethereum && prior.user == row.user && prior.asset in {ETH, USDT} && row.asset in {ETH, USDT})
             || (prior.user == row.user && prior.asset == row.asset)
    ensures MayShare(family, prior, row)
  {
  }

  lemma RouteConflict(env: Env, rows: seq<Route>, ps: seq<Parsed>, routes: map<(Family, string), nat>,
    providers: map<(string, string), nat>, p: Parsed)
    requires Passed(env, rows, ps, routes, providers) && |ps| < |rows| && Parse(env, rows[|ps|]) == Some(p)
    requires RouteKey(rows[|ps|], p) in routes
    requires var a, b := rows[routes[RouteKey(rows[|ps|], p)]], rows[|ps|];
             && !(b.family == Ethereum && a.user == b.user && a.asset in {ETH, USDT} && b.asset in {ETH, USDT})
             && (a.user != b.user || a.asset != b.asset)
    ensures !Sound(env, rows)
  {
    hide Parse;
    assert Conflict(env, rows[routes[RouteKey(rows[|ps|], p)]], rows[|ps|]);
  }

  lemma ProviderConflict(env: Env, rows: seq<Route>, ps: seq<Parsed>, routes: map<(Family, string), nat>,
    providers: map<(string, string), nat>, p: Parsed)
    requires Passed(env, rows, ps, routes, providers) && |ps| < |rows| && Parse(env, rows[|ps|]) == Some(p)
    requires HasProvider(rows[|ps|]) && (rows[|ps|].origin, rows[|ps|].ref) in providers
    requires var prior := providers[(rows[|ps|].origin, rows[|ps|].ref)];
             rows[prior].user != rows[|ps|].user || ps[prior].fingerprint != p.fingerprint
    ensures !Sound(env, rows)
  {
    hide Parse;
    assert Conflict(env, rows[providers[(rows[|ps|].origin, rows[|ps|].ref)]], rows[|ps|]);
  }
}
