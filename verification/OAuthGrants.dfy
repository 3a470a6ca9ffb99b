/**
 An MCP server's stored OAuth grant (`src/mcp_oauth.rs`, `src/db/mcp.rs`): sign-ins, refreshes, clears,
 disconnects, address edits and deletes, in any interleaving. Each database statement is one step.
 */
module OAuthGrants {
  import opened Wrappers

  /** A grant as the row holds it; `audience` is the address its provider issued it for. */
  datatype Grant = Grant(client: string, audience: string, tokens: string)

  datatype Row = Row(url: string, grant: Option<Grant>)

  datatype SaveRule = SignIn | RefreshOnly

  // ----- The statements -----

  /** A sign-in's save: only while the row has the address the sign-in started for. */
  function SaveSignIn(row: Option<Row>, url: string, grant: Grant): Option<Row> {
    if row.Some? && row.value.url == url then Some(Row(url, Some(grant))) else row
  }

  predicate SignInMatches(row: Option<Row>, url: string) {
    row.Some? && row.value.url == url
  }

  /** A refresh's save: only over the grant it read, for the same client, at its address. */
  predicate RefreshMatches(row: Option<Row>, url: string, refreshed: Grant, grant: Grant) {
    row == Some(Row(url, Some(refreshed))) && refreshed.client == grant.client
  }

  predicate ClearMatches(row: Option<Row>, url: string, loaded: Grant) {
    row == Some(Row(url, Some(loaded)))
  }

  /** An edit's update: a new address takes the grant with it. */
  function Edited(row: Option<Row>, url: string): Option<Row> {
    match row
    case None => None
    case Some(r) => Some(Row(url, if r.url == url then r.grant else None))
  }

  function Disconnected(row: Option<Row>): Option<Row> {
    match row
    case None => None
    case Some(r) => Some(Row(r.url, None))
  }

  // ----- The class -----

  /** The server's row in the database. */
  class Table {
    var row: Option<Row>

    constructor (row: Option<Row>)
      ensures this.row == row
    {
      this.row := row;
    }

    /** No grant is left, and the server and its address are as they were. */
    method Disconnect()
      modifies this
      ensures row == Disconnected(old(row))
      ensures row.Some? <==> old(row).Some?
      ensures row.Some? ==> row.value.url == old(row).value.url && row.value.grant.None?
    {
      if row.Some? {
        row := Some(Row(row.value.url, None));
      }
    }

    /** The server is at the new address, with no grant but one it had at that same address. */
    method UpdateConfig(url: string)
      modifies this
      ensures row == Edited(old(row), url)
      ensures row.Some? <==> old(row).Some?
      ensures row.Some? ==> row.value.url == url
      ensures row.Some? && row.value.grant.Some? ==> row == old(row)
      ensures old(row).Some? && old(row).value.url == url ==> row == old(row)
    {
      if row.Some? {
        row := Some(Row(url, if row.value.url == url then row.value.grant else None));
      }
    }

    method Delete()
      modifies this
      ensures row == None
    {
      row := None;
    }
  }

  datatype StoreState = StoreState(url: string, rule: SaveRule, loaded: Option<Grant>)

  datatype LoadError = NoServer

  datatype SaveError = AddressChanged | RefreshRefused

  /** The store a manager loads and saves its grant through. */
  class CredentialStore {
    const table: Table
    const url: string
    const rule: SaveRule
    /** The grant the last load read, until a save or a clear. */
    var loaded: Option<Grant>

    ghost function View(): StoreState
      reads this
    {
      StoreState(url, rule, loaded)
    }

    constructor (table: Table, url: string, rule: SaveRule)
      ensures this.table == table && View() == StoreState(url, rule, None)
    {
      this.table, this.url, this.rule, this.loaded := table, url, rule, None;
    }

    method Load() returns (grant: Result<Option<Grant>, LoadError>)
      modifies this
      ensures View() == LoadStep(table.row, old(View()))
      ensures grant == if table.row.None? then Err(NoServer) else Ok(loaded)
    {
      if table.row.None? {
        return Err(NoServer);
      }
      var row := table.row.value;
      var kept := if row.url == url then row.grant else None;
      loaded := kept;
      return Ok(kept);
    }

    method Save(credentials: Grant) returns (saved: Result<(), SaveError>)
      modifies this, table
      ensures (table.row, View()) == SaveStep(old(table.row), old(View()), credentials)
      ensures saved.Ok? <==> Saves(old(table.row), old(View()), credentials)
    {
      match rule {
        case SignIn =>
          if !SignInMatches(table.row, url) {
            return Err(AddressChanged);
          }
          table.row := SaveSignIn(table.row, url, credentials);
        case RefreshOnly =>
          if loaded.None? || !RefreshMatches(table.row, url, loaded.value, credentials) {
            return Err(RefreshRefused);
          }
          table.row := Some(Row(url, Some(credentials)));
      }
      loaded := None;
      return Ok(());
    }

    method Clear()
      modifies this, table
      ensures (table.row, View()) == ClearStep(old(table.row), old(View()))
    {
      if loaded.None? {
        return;
      }
      if ClearMatches(table.row, url, loaded.value) {
        table.row := Some(Row(url, None));
      }
      loaded := None;
    }
  }

  // ----- What each store operation does -----

  /** A load keeps the row's grant if the row is still at the store's address. */
  function LoadStep(row: Option<Row>, store: StoreState): StoreState {
    match row
    case None => store
    case Some(r) => store.(loaded := if r.url == store.url then r.grant else None)
  }

  predicate Saves(row: Option<Row>, store: StoreState, grant: Grant) {
    match store.rule
    case SignIn => SignInMatches(row, store.url)
    case RefreshOnly => store.loaded.Some? && RefreshMatches(row, store.url, store.loaded.value, grant)
  }

  function SaveStep(row: Option<Row>, store: StoreState, grant: Grant): (Option<Row>, StoreState) {
    if Saves(row, store, grant) then (Some(Row(store.url, Some(grant))), store.(loaded := None)) else (row, store)
  }

  function ClearStep(row: Option<Row>, store: StoreState): (Option<Row>, StoreState) {
    match store.loaded
    case None => (row, store)
    case Some(loaded) =>
      (if ClearMatches(row, store.url, loaded) then Some(Row(store.url, None)) else row, store.(loaded := None))
  }

  // ----- Runs -----

  /** The row, and every store ever made, in order. */
  datatype System = System(row: Option<Row>, stores: seq<StoreState>)

  datatype Step =
    | NewStore(url: string, rule: SaveRule)
    | Load(store: nat)
    | Save(store: nat, grant: Grant)
    | Clear(store: nat)
    | Disconnect
    | Edit(url: string)
    | Delete

  function Do(s: System, step: Step): System {
    match step
    case NewStore(url, rule) => s.(stores := s.stores + [StoreState(url, rule, None)])
    case Load(i) => if i < |s.stores| then s.(stores := s.stores[i := LoadStep(s.row, s.stores[i])]) else s
    case Save(i, grant) =>
      if i < |s.stores| then
        var (row, store) := SaveStep(s.row, s.stores[i], grant);
        System(row, s.stores[i := store])
      else s
    case Clear(i) =>
      if i < |s.stores| then
        var (row, store) := ClearStep(s.row, s.stores[i]);
        System(row, s.stores[i := store])
      else s
    case Disconnect => s.(row := Disconnected(s.row))
    case Edit(url) => s.(row := Edited(s.row, url))
    case Delete => s.(row := None)
  }

  /** The state after the first `n` steps. */
  function After(start: System, steps: seq<Step>, n: nat): System
    requires n <= |steps|
  {
    if n == 0 then start else Do(After(start, steps, n - 1), steps[n - 1])
  }

  function GrantOf(s: System): Option<Grant> {
    match s.row
    case None => None
    case Some(row) => row.grant
  }

  /** The step saves a grant, from a store with this rule. */
  predicate SavesAt(s: System, step: Step, rule: SaveRule) {
    && step.Save? && step.store < |s.stores| && s.stores[step.store].rule == rule
    && Saves(s.row, s.stores[step.store], step.grant)
  }

  // ----- No grant until a sign-in -----

  /** A row without a grant gains one only from a sign-in for the row's address. */
  lemma OnlySignInsConnect(s: System, step: Step)
    requires GrantOf(s).None? && GrantOf(Do(s, step)).Some?
    ensures SavesAt(s, step, SignIn) && s.row.Some? && s.row.value.url == s.stores[step.store].url
  {
  }

  /**
   Whatever refreshes, clears, edits and disconnects come, a row without a grant stays without one until a sign-in
   saves.
   */
  lemma {:induction false} StaysDisconnected(start: System, steps: seq<Step>, from: nat, n: nat)
    requires from <= n <= |steps| && GrantOf(After(start, steps, from)).None?
    requires forall k | from <= k < n :: !SavesAt(After(start, steps, k), steps[k], SignIn)
    ensures GrantOf(After(start, steps, n)).None?
    decreases n - from
  {
    hide Do;
    if from < n {
      StaysDisconnected(start, steps, from, n - 1);
      var s := After(start, steps, n - 1);
      if GrantOf(Do(s, steps[n - 1])).Some? {
        OnlySignInsConnect(s, steps[n - 1]);
      }
    }
  }

  // ----- A refresh saves over what its own store read -----

  /** A store keeps its address and rule. */
  lemma {:induction false} StoreStays(start: System, steps: seq<Step>, i: nat, from: nat, n: nat)
    requires from <= n <= |steps| && i < |After(start, steps, from).stores|
    ensures i < |After(start, steps, n).stores|
    ensures After(start, steps, n).stores[i].url == After(start, steps, from).stores[i].url
    ensures After(start, steps, n).stores[i].rule == After(start, steps, from).stores[i].rule
    decreases n - from
  {
    if from < n {
      StoreStays(start, steps, i, from, n - 1);
    }
  }

  /**
   What the store holds as loaded after `n` steps was read by a load of its own at step `k`, which it made nothing of
   since.
   */
  predicate ReadAt(start: System, steps: seq<Step>, i: nat, grant: Grant, k: nat, n: nat) {
    && k < n <= |steps| && steps[k] == Load(i)
    && i < |After(start, steps, k).stores|
    && After(start, steps, k).row == Some(Row(After(start, steps, k).stores[i].url, Some(grant)))
    && forall m | k < m < n && steps[m] == Load(i) :: After(start, steps, m).row.None?
  }

  lemma LoadedByStep(s: System, step: Step, i: nat, grant: Grant)
    requires i < |Do(s, step).stores| && Do(s, step).stores[i].loaded == Some(grant)
    ensures if step == Load(i) && s.row.Some? then i < |s.stores| && s.row == Some(Row(s.stores[i].url, Some(grant)))
            else i < |s.stores| && s.stores[i].loaded == Some(grant)
  {
  }

  lemma {:induction false} LoadedWasRead(start: System, steps: seq<Step>, i: nat, grant: Grant, n: nat) returns (k: nat)
    requires start.stores == [] && n <= |steps|
    requires i < |After(start, steps, n).stores| && After(start, steps, n).stores[i].loaded == Some(grant)
    ensures ReadAt(start, steps, i, grant, k, n)
  {
    hide Do;
    var s := After(start, steps, n - 1);
    LoadedByStep(s, steps[n - 1], i, grant);
    if steps[n - 1] == Load(i) && s.row.Some? {
      k := n - 1;
    } else {
      k := LoadedWasRead(start, steps, i, grant, n - 1);
    }
  }

  /**
   A refresh saves only over the grant that its own store's last load read, still in the row at the
   address it was read at, and for the same client.
   */
  lemma RefreshSavesOverItsLoad(start: System, steps: seq<Step>, n: nat) returns (k: nat, read: Grant)
    requires start.stores == [] && n < |steps| && SavesAt(After(start, steps, n), steps[n], RefreshOnly)
    ensures ReadAt(start, steps, steps[n].store, read, k, n)
    ensures After(start, steps, n).row == After(start, steps, k).row && GrantOf(After(start, steps, n)) == Some(read)
    ensures read.client == steps[n].grant.client
  {
    var s, i := After(start, steps, n), steps[n].store;
    read := s.stores[i].loaded.value;
    k := LoadedWasRead(start, steps, i, read, n);
    StoreStays(start, steps, i, k, n);
  }

  // ----- A grant cut off is refreshed by no one -----

  /** The step takes the grant from the row: a disconnect, a delete, or an edit to another address. */
  predicate CutsOff(s: System, step: Step) {
    step.Disconnect? || step.Delete? || (step.Edit? && s.row.Some? && s.row.value.url != step.url)
  }

  /**
   After a disconnect, a delete or an edit to another address, the row has no grant and no refresh saves,
   whatever its store loaded before, until a sign-in saves. The disconnected server keeps its address.
   */
  lemma CutOffGrantsStayOut(start: System, steps: seq<Step>, cut: nat, n: nat)
    requires cut < n < |steps| && CutsOff(After(start, steps, cut), steps[cut])
    requires forall k | cut < k < n :: !SavesAt(After(start, steps, k), steps[k], SignIn)
    ensures GrantOf(After(start, steps, n)).None?
    ensures !SavesAt(After(start, steps, n), steps[n], RefreshOnly)
    ensures steps[cut].Disconnect? ==> AddressOf(After(start, steps, cut + 1)) == AddressOf(After(start, steps, cut))
  {
    StaysDisconnected(start, steps, cut + 1, n);
  }

  function AddressOf(s: System): Option<string> {
    match s.row
    case None => None
    case Some(row) => Some(row.url)
  }

  /** A clear takes from the row the grant its store loaded, still there at the store's address, and nothing else. */
  lemma ClearRemovesTheLoaded(s: System, i: nat)
    requires i < |s.stores|
    ensures var (store, after) := (s.stores[i], Do(s, Clear(i)));
            && after.row
                == (if store.loaded.Some? && s.row == Some(Row(store.url, store.loaded)) then Some(Row(store.url, None))
                             else s.row)
            && |after.stores| == |s.stores| && after.stores[i] == StoreState(store.url, store.rule, None)
            && forall k | 0 <= k < |s.stores| && k != i :: after.stores[k] == s.stores[k]
  {
  }

  /** A clear after a load, with the row as it was, leaves the server without a grant at its address. */
  lemma LoadThenClear(start: System, steps: seq<Step>, i: nat, load: nat, n: nat)
    requires load < n < |steps| && steps[load] == Load(i) && steps[n] == Clear(i)
    requires var s := After(start, steps, load);
             i < |s.stores| && s.row.Some? && s.row.value.url == s.stores[i].url
    requires After(start, steps, n).row == After(start, steps, load).row
    requires forall k | load < k < n ::
             steps[k] != Load(i) && steps[k] != Clear(i) && !(steps[k].Save? && steps[k].store == i)
    ensures After(start, steps, n + 1).row == Some(Row(After(start, steps, load).row.value.url, None))
  {
    hide Do;
    LoadedStays(start, steps, i, load, n);
    var s := After(start, steps, n);
    StoreStays(start, steps, i, load, n);
    ClearRemovesTheLoaded(s, i);
  }

  lemma LoadKeeps(s: System, i: nat)
    requires i < |s.stores| && s.row.Some? && s.row.value.url == s.stores[i].url
    ensures i < |Do(s, Load(i)).stores| && Do(s, Load(i)).stores[i].loaded == s.row.value.grant
  {
  }

  lemma OthersKeepLoaded(s: System, step: Step, i: nat)
    requires i < |s.stores| && step != Load(i) && step != Clear(i) && !(step.Save? && step.store == i)
    ensures i < |Do(s, step).stores| && Do(s, step).stores[i] == s.stores[i]
  {
  }

  lemma {:induction false} LoadedStays(start: System, steps: seq<Step>, i: nat, load: nat, n: nat)
    requires load < n <= |steps| && steps[load] == Load(i)
    requires var s := After(start, steps, load);
             i < |s.stores| && s.row.Some? && s.row.value.url == s.stores[i].url
    requires forall k | load < k < n ::
             steps[k] != Load(i) && steps[k] != Clear(i) && !(steps[k].Save? && steps[k].store == i)
    ensures i < |After(start, steps, n).stores|
    ensures After(start, steps, n).stores[i].loaded == After(start, steps, load).row.value.grant
    decreases n
  {
    hide Do;
    if n == load + 1 {
      LoadKeeps(After(start, steps, load), i);
    } else {
      LoadedStays(start, steps, i, load, n - 1);
      OthersKeepLoaded(After(start, steps, n - 1), steps[n - 1], i);
    }
  }

  // ----- A removed grant comes back only by being saved again -----

  lemma GrantComesFromSave(s: System, step: Step, grant: Grant)
    requires GrantOf(s) != Some(grant) && GrantOf(Do(s, step)) == Some(grant)
    ensures step.Save? && step.grant == grant && (SavesAt(s, step, SignIn) || SavesAt(s, step, RefreshOnly))
  {
  }

  /** A grant that is not in the row and later is was saved in between. */
  lemma {:induction false} RemovedReturnsOnlyBySave(start: System, steps: seq<Step>, grant: Grant, gone: nat, n: nat)
    returns (k: nat)
    requires gone <= n <= |steps|
    requires GrantOf(After(start, steps, gone)) != Some(grant) && GrantOf(After(start, steps, n)) == Some(grant)
    ensures gone <= k < n && steps[k].Save? && steps[k].grant == grant
    ensures SavesAt(After(start, steps, k), steps[k], SignIn) || SavesAt(After(start, steps, k), steps[k], RefreshOnly)
    decreases n - gone
  {
    hide Do;
    if GrantOf(After(start, steps, n - 1)) == Some(grant) {
      k := RemovedReturnsOnlyBySave(start, steps, grant, gone, n - 1);
    } else {
      k := n - 1;
      GrantComesFromSave(After(start, steps, n - 1), steps[n - 1], grant);
    }
  }

  /** Step `k` saved the grant at this address, and the row has been as that save left it up to step `n`. */
  predicate SavedAndKept(start: System, steps: seq<Step>, url: string, grant: Grant, k: nat, n: nat) {
    && k < n <= |steps| && steps[k].Save? && steps[k].grant == grant
    && steps[k].store < |After(start, steps, k).stores| && After(start, steps, k).stores[steps[k].store].url == url
    && Saves(After(start, steps, k).row, After(start, steps, k).stores[steps[k].store], grant)
    && forall m | k < m <= n :: After(start, steps, m).row == After(start, steps, k + 1).row
  }

  lemma SavedRow(s: System, step: Step, url: string, grant: Grant)
    requires step.Save? && step.grant == grant && step.store < |s.stores| && s.stores[step.store].url == url
    requires Saves(s.row, s.stores[step.store], grant)
    ensures Do(s, step).row == Some(Row(url, Some(grant)))
  {
  }

  /** A step after which an address has a grant it did not have is that grant's save, by a store at the address. */
  lemma RowComesFromSave(s: System, step: Step, url: string, grant: Grant)
    requires s.row != Some(Row(url, Some(grant))) && Do(s, step).row == Some(Row(url, Some(grant)))
    ensures step.Save? && step.grant == grant && step.store < |s.stores| && s.stores[step.store].url == url
    ensures Saves(s.row, s.stores[step.store], grant)
  {
  }

  lemma {:induction false} LastSave(start: System, steps: seq<Step>, url: string, grant: Grant, gone: nat, n: nat)
    returns (k: nat)
    requires gone <= n <= |steps| && GrantOf(After(start, steps, gone)) != Some(grant)
    requires After(start, steps, n).row == Some(Row(url, Some(grant)))
    ensures gone <= k < n && SavedAndKept(start, steps, url, grant, k, n)
    decreases n - gone
  {
    hide Do;
    hide Saves;
    var before := After(start, steps, n - 1);
    if before.row == Some(Row(url, Some(grant))) {
      k := LastSave(start, steps, url, grant, gone, n - 1);
    } else {
      k := n - 1;
      RowComesFromSave(before, steps[k], url, grant);
    }
  }

  /**
   Exactly when a refresh made from a grant that had left the row saves: when an equal grant was saved at
   the store's address since, and the row has not changed after that.
   */
  lemma RemovedIsRefreshedExactlyWhenSavedAgain(start: System, steps: seq<Step>, grant: Grant, gone: nat, n: nat)
    requires gone <= n < |steps| && GrantOf(After(start, steps, gone)) != Some(grant)
    requires steps[n].Save? && steps[n].store < |After(start, steps, n).stores|
    requires After(start, steps, n).stores[steps[n].store].rule == RefreshOnly
    requires After(start, steps, n).stores[steps[n].store].loaded == Some(grant)
    ensures var url := After(start, steps, n).stores[steps[n].store].url;
            var again := exists k: nat | gone <= k < n :: SavedAndKept(start, steps, url, grant, k, n);
            SavesAt(After(start, steps, n), steps[n], RefreshOnly) <==> again && steps[n].grant.client == grant.client
  {
    hide Do;
    var s, url := After(start, steps, n), After(start, steps, n).stores[steps[n].store].url;
    if SavesAt(s, steps[n], RefreshOnly) {
      var k := LastSave(start, steps, url, grant, gone, n);
    }
    if k: nat :| gone <= k < n && SavedAndKept(start, steps, url, grant, k, n) {
      SavedRow(After(start, steps, k), steps[k], url, grant);
      assert s.row == After(start, steps, k + 1).row;
    }
  }

  /**
   Such a run: a grant disconnected and saved again, equal in every part, is refreshed by a store that read it before.
   */
  lemma EqualGrantIsRefreshed(url: string, grant: Grant, refreshed: Grant)
    requires refreshed.client == grant.client
    ensures var start := System(Some(Row(url, Some(grant))), []);
            var steps :=
              [NewStore(url, RefreshOnly), Load(0), Disconnect, NewStore(url, SignIn), Save(1, grant),
                 Save(0, refreshed)];
            && GrantOf(After(start, steps, 3)).None?
            && After(start, steps, 5).stores
                == [StoreState(url, RefreshOnly, Some(grant)), StoreState(url, SignIn, None)]
            && SavesAt(After(start, steps, 5), steps[5], RefreshOnly)
  {
    var start := System(Some(Row(url, Some(grant))), []);
    var steps :=
      [NewStore(url, RefreshOnly), Load(0), Disconnect, NewStore(url, SignIn), Save(1, grant), Save(0, refreshed)];
    var reader, writer := StoreState(url, RefreshOnly, Some(grant)), StoreState(url, SignIn, None);
    assert After(start, steps, 2) == System(start.row, [reader]) by {
      assert After(start, steps, 1) == System(start.row, [StoreState(url, RefreshOnly, None)]);
    }
    assert After(start, steps, 3) == System(Some(Row(url, None)), [reader]);
    assert After(start, steps, 4) == System(Some(Row(url, None)), [reader, writer]);
    assert After(start, steps, 5) == System(start.row, [reader, writer]);
  }

  // ----- A token goes only to the address it was issued for -----

  /** Every grant saved through a store was issued for the store's address, as the provider issues it. */
  predicate IssuedForItsStore(start: System, steps: seq<Step>) {
    forall k | 0 <= k < |steps| && steps[k].Save? && steps[k].store < |After(start, steps, k).stores| ::
      steps[k].grant.audience == After(start, steps, k).stores[steps[k].store].url
  }

  /** The row's grant, and each store's, is for the address it is kept for. */
  predicate AtItsAddress(s: System) {
    && (s.row.Some? && s.row.value.grant.Some? ==> s.row.value.grant.value.audience == s.row.value.url)
    && (forall i | 0 <= i < |s.stores| && s.stores[i].loaded.Some? ::
          s.stores[i].loaded.value.audience == s.stores[i].url)
  }

  lemma StepKeepsAddress(s: System, step: Step)
    requires AtItsAddress(s)
    requires step.Save? && step.store < |s.stores| ==> step.grant.audience == s.stores[step.store].url
    ensures AtItsAddress(Do(s, step))
  {
  }

  /**
   In every run the row's grant is for the row's address, and no store ever loads a grant for another than its own.
   */
  lemma {:induction false} TokensStayAtTheirAddress(start: System, steps: seq<Step>, n: nat)
    requires n <= |steps| && AtItsAddress(start) && IssuedForItsStore(start, steps)
    ensures AtItsAddress(After(start, steps, n))
  {
    hide AtItsAddress;
    hide Do;
    if n > 0 {
      TokensStayAtTheirAddress(start, steps, n - 1);
      StepKeepsAddress(After(start, steps, n - 1), steps[n - 1]);
    }
  }
}
