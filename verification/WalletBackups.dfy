/** Backups of a wallet: what is exported, what a backup must satisfy, and what restoring one gives back. */
module WalletBackups {
  import opened MintTypes
  import opened Sorting
  import opened AccountBooks

  datatype BackupAccount = BackupAccount(identity: Identity, index: nat, name: string)

  datatype WalletBackup = WalletBackup(vault: Vault, accounts: seq<BackupAccount>, selected: nat)

  /** One account is exported as its bare vault, several with their public identities. */
  datatype Backup = BareVault(vault: Vault) | Accounts(backup: WalletBackup)

  function IndexOf(a: BackupAccount): nat {
    a.index
  }

  function OwnerOf(a: BackupAccount): Id {
    a.identity.owner
  }

  function WalletRecords(s: seq<StoredAccount>, wallet: Id): seq<StoredAccount> {
    if s == [] then []
    else WalletRecords(s[..|s| - 1], wallet) + if s[|s| - 1].vault.owner == wallet then [s[|s| - 1]] else []
  }

  function Public(a: StoredAccount): BackupAccount {
    BackupAccount(RecordIdentity(a), Derivation(a), a.name)
  }

  function PublicAll(s: seq<StoredAccount>): seq<BackupAccount> {
    seq(|s|, i requires 0 <= i < |s| => Public(s[i]))
  }

  function PublicAccounts(b: Book): seq<BackupAccount>
    requires b.active.Some?
  {
    Sort(PublicAll(WalletRecords(Records(b), b.active.value.vault.owner)), IndexOf)
  }

  function ExportWallet(b: Book): Option<Backup> {
    if b.active.None? then None
    else if |PublicAccounts(b)| == 1 then Some(BareVault(b.active.value.vault))
    else Some(Accounts(WalletBackup(b.active.value.vault, PublicAccounts(b), Derivation(b.active.value))))
  }

  // ---- Parsing --------------------------------------------------------------------------------------

  function TrimmedNames(accounts: seq<BackupAccount>): seq<BackupAccount> {
    seq(|accounts|, i requires 0 <= i < |accounts| => accounts[i].(name := Trim(accounts[i].name)))
  }

  ghost predicate AccountsOk(accounts: seq<BackupAccount>) {
    && (forall i :: 0 <= i < |accounts| ==> accounts[i].index == i && NameOk(accounts[i].name))
    && DistinctBy(OwnerOf, accounts)
  }

  /** The rules a backup of several accounts must satisfy. */
  ghost predicate BackupOk(f: WalletBackup, genesis: Id) {
    && f.vault.genesis == genesis && 0 < |f.accounts| <= MAX_ACCOUNTS && AccountsOk(f.accounts)
    && f.accounts[0].identity == Identity(f.vault.owner, f.vault.address)
    && f.selected < |f.accounts|
  }

  function OnlyAccount(v: Vault): WalletBackup {
    WalletBackup(v, [BackupAccount(Identity(v.owner, v.address), 0, "Account 1")], 0)
  }

  /** `parseWalletBackup`: metadata comes back with its names trimmed; none when refused. */
  method ParseWalletBackup(input: Backup, genesis: Id) returns (r: Option<WalletBackup>)
    ensures input.BareVault? ==>
              r == if input.vault.genesis == genesis then Some(OnlyAccount(input.vault)) else None
    ensures input.Accounts? ==>
              (r.Some? <==> BackupOk(input.backup, genesis))
              && (r.Some? ==> r.value == input.backup.(accounts := TrimmedNames(input.backup.accounts)))
  {
    if input.BareVault? {
      return if input.vault.genesis == genesis then Some(OnlyAccount(input.vault)) else None;
    }
    var f := input.backup;
    if f.vault.genesis != genesis || |f.accounts| == 0 || |f.accounts| > MAX_ACCOUNTS {
      return None;
    }
    var owners: set<Id>, accounts: seq<BackupAccount> := {}, [];
    for i := 0 to |f.accounts|
      invariant owners == set a <- f.accounts[..i] :: OwnerOf(a)
      invariant forall j :: 0 <= j < i ==> f.accounts[j].index == j && NameOk(f.accounts[j].name)
      invariant DistinctBy(OwnerOf, f.accounts[..i])
      invariant accounts == TrimmedNames(f.accounts[..i])
    {
      var a := f.accounts[i];
      assert f.accounts[..i + 1] == f.accounts[..i] + [a];
      DistinctWithLast(OwnerOf, f.accounts[..i], a);
      NewByElements(OwnerOf, f.accounts[..i], a);
      if a.index != i || OwnerOf(a) in owners || !NameOk(a.name) {
        BrokenAccounts(f.accounts, i);
        return None;
      }
      owners, accounts := owners + {OwnerOf(a)}, accounts + [a.(name := Trim(a.name))];
    }
    assert f.accounts[..|f.accounts|] == f.accounts;
    if f.accounts[0].identity != Identity(f.vault.owner, f.vault.address) || f.selected >= |f.accounts| {
      return None;
    }
    r := Some(f.(accounts := accounts));
  }

  lemma BrokenAccounts(accounts: seq<BackupAccount>, i: nat)
    requires i < |accounts|
    requires accounts[i].index != i || !NameOk(accounts[i].name) || !NewBy(OwnerOf, accounts[..i], accounts[i])
    ensures !AccountsOk(accounts)
  {
  }

  // ---- What an export holds -------------------------------------------------------------------------

  lemma {:induction false} WalletRecordsHave(s: seq<StoredAccount>, wallet: Id)
    ensures |WalletRecords(s, wallet)| <= |s|
    ensures forall a :: a in WalletRecords(s, wallet) <==> a in s && a.vault.owner == wallet
  {
    if s != [] {
      var k := |s| - 1;
      WalletRecordsHave(s[..k], wallet);
      assert s == s[..k] + [s[k]];
    }
  }

  lemma {:induction false} WalletRecordsDistinct<K>(f: StoredAccount -> K, s: seq<StoredAccount>, wallet: Id)
    requires DistinctBy(f, s)
    ensures DistinctBy(f, WalletRecords(s, wallet))
  {
    if s != [] {
      var k := |s| - 1;
      WalletRecordsDistinct(f, s[..k], wallet);
      WalletRecordsHave(s[..k], wallet);
      assert s == s[..k] + [s[k]];
      DistinctWithLast(f, s[..k], s[k]);
      NewByElements(f, s[..k], s[k]);
      NewByElements(f, WalletRecords(s[..k], wallet), s[k]);
      DistinctWithLast(f, WalletRecords(s[..k], wallet), s[k]);
    }
  }

  lemma {:induction false} KeysGrow(s: seq<BackupAccount>, i: nat)
    requires Ascending(s, IndexOf) && i < |s|
    ensures s[i].index >= i
  {
    if i > 0 {
      KeysGrow(s, i - 1);
      assert IndexOf(s[i - 1]) < IndexOf(s[i]);
    }
  }

  /** Ascending keys without a gap below any of them are the positions themselves. */
  lemma {:induction false} GaplessKeys(s: seq<BackupAccount>, i: nat)
    requires Ascending(s, IndexOf) && i < |s|
    requires forall a <- s, k: nat :: k < a.index ==> HasIndex(s, k)
    ensures s[i].index == i
    decreases i
  {
    KeysGrow(s, i);
    if s[i].index > i {
      assert s[i] in s && HasIndex(s, i);
      var c :| c in s && c.index == i;
      var j :| 0 <= j < |s| && s[j] == c;
      KeysGrow(s, j);
      if j < i {
        GaplessKeys(s, j);
      }
    }
  }

  predicate HasIndex(s: seq<BackupAccount>, k: nat) {
    exists a <- s :: a.index == k
  }

  lemma PublicHas(s: seq<StoredAccount>)
    ensures forall a <- s :: Public(a) in PublicAll(s)
    ensures forall c <- PublicAll(s) :: exists a <- s :: Public(a) == c
  {
    forall a | a in s ensures Public(a) in PublicAll(s) {
      var i :| 0 <= i < |s| && s[i] == a;
      assert PublicAll(s)[i] == Public(a);
    }
    forall c | c in PublicAll(s) ensures exists a <- s :: Public(a) == c {
      var i :| 0 <= i < |s| && PublicAll(s)[i] == c;
      assert s[i] in s;
    }
  }

  /** The records of the active wallet, and each of their public faces, are distinct. */
  lemma PublicDistinct(b: Book, n: Networks)
    requires BookOk(b, n) && b.active.Some?
    ensures
      var w := WalletRecords(Records(b), b.active.value.vault.owner);
      DistinctBy(OwnerOf, PublicAll(w)) && DistinctBy(IndexOf, PublicAll(w))
  {
    var wallet := b.active.value.vault.owner;
    var w := WalletRecords(Records(b), wallet);
    WalletRecordsDistinct(Owner, Records(b), wallet);
    WalletRecordsDistinct(Slot, Records(b), wallet);
    WalletRecordsHave(Records(b), wallet);
    forall i, j | 0 <= i < j < |w| ensures Derivation(w[i]) != Derivation(w[j]) {
      assert Slot(w[i]) != Slot(w[j]) && w[i] in w && w[j] in w;
    }
  }

  lemma PublicIndexes(b: Book, n: Networks)
    requires BookOk(b, n) && Contiguous(Records(b)) && b.active.Some?
    ensures forall c <- PublicAccounts(b), k: nat :: k < c.index ==> HasIndex(PublicAccounts(b), k)
  {
    var wallet, s := b.active.value.vault.owner, PublicAccounts(b);
    var w := WalletRecords(Records(b), wallet);
    WalletRecordsHave(Records(b), wallet);
    PublicHas(w);
    SortHas(PublicAll(w), IndexOf);
    forall c, k: nat | c in s && k < c.index ensures HasIndex(s, k) {
      var a :| a in w && Public(a) == c;
      assert HasSlot(Records(b), wallet, k);
      var r :| r in Records(b) && r.vault.owner == wallet && Derivation(r) == k;
      assert r in w && Public(r) in s;
    }
  }

  /** Exported accounts stand at their own derivation index, under distinct owners. */
  lemma ExportedInOrder(b: Book, n: Networks)
    requires BookOk(b, n) && Contiguous(Records(b)) && b.active.Some?
    ensures forall i :: 0 <= i < |PublicAccounts(b)| ==> PublicAccounts(b)[i].index == i
    ensures DistinctBy(OwnerOf, PublicAccounts(b))
    ensures |PublicAccounts(b)| <= MAX_ACCOUNTS
  {
    var wallet, s := b.active.value.vault.owner, PublicAccounts(b);
    var m := PublicAll(WalletRecords(Records(b), wallet));
    PublicDistinct(b, n);
    SortDistinct(OwnerOf, m, IndexOf);
    SortAscends(m, IndexOf);
    PublicIndexes(b, n);
    forall i | 0 <= i < |s| ensures s[i].index == i {
      GaplessKeys(s, i);
    }
    SortHas(m, IndexOf);
    WalletRecordsHave(Records(b), wallet);
    SortHas(Listed(b), Rank);
  }

  lemma ExportedHas(b: Book, a: StoredAccount)
    requires b.active.Some?
    ensures Public(a) in PublicAccounts(b) <== a in Listed(b) && a.vault.owner == b.active.value.vault.owner
  {
    var wallet := b.active.value.vault.owner;
    var w := WalletRecords(Records(b), wallet);
    WalletRecordsHave(Records(b), wallet);
    PublicHas(w);
    SortHas(PublicAll(w), IndexOf);
    SortHas(Listed(b), Rank);
  }

  lemma ExportedComesFrom(b: Book, c: BackupAccount) returns (a: StoredAccount)
    requires b.active.Some? && c in PublicAccounts(b)
    ensures a in Listed(b) && a.vault.owner == b.active.value.vault.owner && Public(a) == c
  {
    var wallet := b.active.value.vault.owner;
    var w := WalletRecords(Records(b), wallet);
    WalletRecordsHave(Records(b), wallet);
    PublicHas(w);
    SortHas(PublicAll(w), IndexOf);
    SortHas(Listed(b), Rank);
    a :| a in w && Public(a) == c;
  }

  /** The first exported account is the wallet's root, and the selected one is exported. */
  lemma ExportedRootAndSelection(b: Book, n: Networks)
    requires BookOk(b, n) && Contiguous(Records(b)) && b.active.Some?
    ensures Derivation(b.active.value) < |PublicAccounts(b)|
    ensures PublicAccounts(b)[Derivation(b.active.value)] == Public(b.active.value)
    ensures PublicAccounts(b)[0].identity == Identity(b.active.value.vault.owner, b.active.value.vault.address)
  {
    var s, active := PublicAccounts(b), b.active.value;
    ExportedInOrder(b, n);
    RulesIgnoreOrder(Listed(b), n);
    assert active == Listed(b)[0];
    ExportedHas(b, active);
    var i :| 0 <= i < |s| && s[i] == Public(active);
    var root := ExportedComesFrom(b, s[0]);
    assert root.derived.None? by {
      assert AccountOk(root, Listed(b), n);
    }
    OneVaultPerWallet(Listed(b), n, root, active);
  }

  lemma ExportedNames(b: Book, n: Networks)
    requires BookOk(b, n) && b.active.Some?
    ensures forall c <- PublicAccounts(b) :: NameOk(c.name)
  {
    RulesIgnoreOrder(Listed(b), n);
    forall c | c in PublicAccounts(b) ensures NameOk(c.name) {
      var a := ExportedComesFrom(b, c);
      assert AccountOk(a, Listed(b), n);
    }
  }

  /** Whatever a valid book exports, parsing accepts: every backup of several accounts comes back with the same
      accounts and selection, names trimmed. */
  lemma ExportAlwaysParses(b: Book, n: Networks)
    requires BookOk(b, n) && Contiguous(Records(b)) && b.active.Some?
    ensures ExportWallet(b).Some?
    ensures match ExportWallet(b).value
            case BareVault(v) => v == b.active.value.vault && |PublicAccounts(b)| == 1
            case Accounts(f) => BackupOk(f, b.active.value.vault.genesis) && f.accounts == PublicAccounts(b)
  {
    ExportedInOrder(b, n);
    ExportedRootAndSelection(b, n);
    ExportedNames(b, n);
    assert forall i :: 0 <= i < |PublicAccounts(b)| ==> PublicAccounts(b)[i] in PublicAccounts(b);
  }

  // ---- Restoring ------------------------------------------------------------------------------------

  /** The `i`-th restored account, under the re-encrypted vault. */
  function Restored(f: WalletBackup, vault: Vault, i: nat): StoredAccount
    requires i < |f.accounts|
  {
    var a := f.accounts[i];
    StoredAccount(vault, if i == 0 then None else Some(Derived(a.identity, i)), a.name, i + 1, true, map[], None)
  }

  function RestoredAll(f: WalletBackup, vault: Vault, k: nat): seq<StoredAccount>
    requires k <= |f.accounts|
  {
    seq(k, i requires 0 <= i < k => Restored(f, vault, i))
  }

  /** The book after `k` accounts were added to an empty one. */
  function BookAfter(f: WalletBackup, vault: Vault, k: nat): Book
    requires 0 < k <= |f.accounts|
  {
    Book(Some(Restored(f, vault, k - 1)), RestoredAll(f, vault, k - 1))
  }

  function Renamed(b: Book, name: string): Book
    requires b.active.Some?
  {
    b.(active := Some(b.active.value.(name := name)))
  }

  ghost predicate Restorable(f: WalletBackup, vault: Vault) {
    BackupOk(f, f.vault.genesis) && vault.owner == f.vault.owner && vault.address == f.vault.address
  }

  lemma RestoredRecords(f: WalletBackup, vault: Vault, k: nat)
    requires 0 < k <= |f.accounts|
    ensures Records(BookAfter(f, vault, k)) == RestoredAll(f, vault, k)
    ensures DistinctBy(Rank, Listed(BookAfter(f, vault, k)))
  {
    var b, all := BookAfter(f, vault, k), RestoredAll(f, vault, k);
    var front, last := RestoredAll(f, vault, k - 1), Restored(f, vault, k - 1);
    assert Listed(b) == [last] + front;
    assert all == front + [last];
    assert Ascending(all, Rank) && DistinctBy(Rank, all);
    DistinctWithLast(Rank, front, last);
    DistinctWithFirst(Rank, last, front);
    SortAscends(Listed(b), Rank);
    SortHas(Listed(b), Rank);
    AscendingIsUnique(Records(b), all, Rank);
  }

  lemma RestoredMaxima(f: WalletBackup, vault: Vault, k: nat)
    requires 0 < k <= |f.accounts|
    ensures MaxRank(RestoredAll(f, vault, k)) == k
    ensures MaxDerivation(RestoredAll(f, vault, k), vault.owner) == k - 1
  {
    var all := RestoredAll(f, vault, k);
    assert all[k - 1] in all && all[k - 1].accountIndex == k && Derivation(all[k - 1]) == k - 1;
    assert forall a <- all :: a.accountIndex <= k && Derivation(a) <= k - 1;
    var m := MaxDerivation(all, vault.owner);
    if m > 0 {
      assert HasSlot(all, vault.owner, m);
    }
  }

  lemma NextOwnerIsNew(f: WalletBackup, vault: Vault, k: nat)
    requires Restorable(f, vault) && 0 < k < |f.accounts|
    ensures forall a <- RestoredAll(f, vault, k) :: Owner(a) != f.accounts[k].identity.owner
  {
    forall a | a in RestoredAll(f, vault, k) ensures Owner(a) != f.accounts[k].identity.owner {
      var i :| 0 <= i < k && a == Restored(f, vault, i);
      assert OwnerOf(f.accounts[i]) != OwnerOf(f.accounts[k]);
    }
  }

  lemma NextIsAdded(f: WalletBackup, vault: Vault, k: nat)
    requires Restorable(f, vault) && 0 < k < |f.accounts|
    ensures AddDerived(BookAfter(f, vault, k), f.accounts[k].identity, k)
         == Some(Activated(BookAfter(f, vault, k), NewDerived(BookAfter(f, vault, k), f.accounts[k].identity, k)))
  {
    RestoredRecords(f, vault, k);
    RestoredMaxima(f, vault, k);
    NextOwnerIsNew(f, vault, k);
  }

  lemma NextIsRestored(f: WalletBackup, vault: Vault, k: nat)
    requires 0 < k < |f.accounts|
    ensures NewDerived(BookAfter(f, vault, k), f.accounts[k].identity, k).(name := f.accounts[k].name)
         == Restored(f, vault, k)
  {
    RestoredRecords(f, vault, k);
    RestoredMaxima(f, vault, k);
  }

  lemma RenamedActive(b: Book, x: StoredAccount, name: string)
    requires b.active.Some?
    ensures Renamed(Activated(b, x), name) == Book(Some(x.(name := name)), b.others + [b.active.value])
  {
  }

  lemma RestoredGrows(f: WalletBackup, vault: Vault, k: nat)
    requires 0 < k < |f.accounts|
    ensures BookAfter(f, vault, k + 1)
         == Book(Some(Restored(f, vault, k)), BookAfter(f, vault, k).others + [BookAfter(f, vault, k).active.value])
  {
    assert RestoredAll(f, vault, k) == RestoredAll(f, vault, k - 1) + [Restored(f, vault, k - 1)];
  }

  /** Each derived account of the backup is the next one the book accepts. */
  lemma NextAccountIsAccepted(f: WalletBackup, vault: Vault, k: nat)
    requires Restorable(f, vault) && 0 < k < |f.accounts|
    ensures
      var r := AddDerived(BookAfter(f, vault, k), f.accounts[k].identity, k);
      r.Some? && Renamed(r.value, f.accounts[k].name) == BookAfter(f, vault, k + 1)
  {
    var b := BookAfter(f, vault, k);
    NextIsAdded(f, vault, k);
    NextIsRestored(f, vault, k);
    RenamedActive(b, NewDerived(b, f.accounts[k].identity, k), f.accounts[k].name);
    RestoredGrows(f, vault, k);
  }

  /** The restored book, with the backup's selection. */
  function Selected(f: WalletBackup, vault: Vault): Option<Book>
    requires 0 <= f.selected < |f.accounts|
  {
    Select(BookAfter(f, vault, |f.accounts|), f.accounts[f.selected].identity.owner)
  }

  /** Replays a parsed backup on an empty book: the root, the derived accounts in order, then the selection. */
  method Restore(book: AccountBook, f: WalletBackup, vault: Vault) returns (ok: bool)
    requires Restorable(f, vault) && book.View() == Book(None, [])
    modifies book
    ensures ok && Selected(f, vault) == Some(book.View())
    ensures forall n: Networks :: Allowed(n, vault.genesis) ==> BookOk(book.View(), n)
    ensures Contiguous(Records(book.View()))
  {
    ok := book.Add(vault, true);
    book.name := f.accounts[0].name;
    FirstAccountIsAccepted(f, vault);
    for k := 1 to |f.accounts|
      invariant ok && book.View() == BookAfter(f, vault, k)
    {
      ok := RestoreNext(book, f, vault, k);
    }
    SelectionIsFound(f, vault);
    ok := book.SelectAccount(f.accounts[f.selected].identity.owner);
    RestoredBookIsValid(f, vault, Networks(Some(vault.genesis), {}));
    forall n: Networks | Allowed(n, vault.genesis) ensures BookOk(book.View(), n) {
      RestoredBookIsValid(f, vault, n);
    }
  }

  method RestoreNext(book: AccountBook, f: WalletBackup, vault: Vault, k: nat) returns (ok: bool)
    requires Restorable(f, vault) && 0 < k < |f.accounts| && book.View() == BookAfter(f, vault, k)
    modifies book
    ensures ok && book.View() == BookAfter(f, vault, k + 1)
  {
    NextAccountIsAccepted(f, vault, k);
    ok := book.Derive(f.accounts[k].identity, k);
    book.name := f.accounts[k].name;
  }

  lemma FirstAccountIsAccepted(f: WalletBackup, vault: Vault)
    requires Restorable(f, vault)
    ensures
      var r := AddAccount(Book(None, []), vault, true);
      r.Some? && Renamed(r.value, f.accounts[0].name) == BookAfter(f, vault, 1)
  {
    SortHas(Listed(Book(None, [])), Rank);
    assert Records(Book(None, [])) == [];
  }

  lemma OwnersTellAccounts(f: WalletBackup, vault: Vault, i: nat)
    requires Restorable(f, vault) && i < |f.accounts|
    ensures Owner(Restored(f, vault, i)) == f.accounts[f.selected].identity.owner <==> i == f.selected
  {
    if i < f.selected {
      assert OwnerOf(f.accounts[i]) != OwnerOf(f.accounts[f.selected]);
    } else if f.selected < i {
      assert OwnerOf(f.accounts[f.selected]) != OwnerOf(f.accounts[i]);
    }
  }

  lemma SelectionIsFound(f: WalletBackup, vault: Vault)
    requires Restorable(f, vault)
    ensures Selected(f, vault).Some? && Selected(f, vault).value.active == Some(Restored(f, vault, f.selected))
  {
    var b, n := BookAfter(f, vault, |f.accounts|), |f.accounts|;
    var owner := f.accounts[f.selected].identity.owner;
    forall i | 0 <= i < n ensures Owner(Restored(f, vault, i)) == owner <==> i == f.selected {
      OwnersTellAccounts(f, vault, i);
    }
    if f.selected < n - 1 {
      assert b.others[f.selected] == Restored(f, vault, f.selected);
      var i := FindOther(b.others, owner);
      assert i < |b.others| ==> b.others[i] == Restored(f, vault, i);
    }
  }

  lemma RestoredIsOk(f: WalletBackup, vault: Vault, n: Networks, i: nat)
    requires Restorable(f, vault) && Allowed(n, vault.genesis) && i < |f.accounts|
    ensures AccountOk(Restored(f, vault, i), RestoredAll(f, vault, |f.accounts|), n)
  {
    var all := RestoredAll(f, vault, |f.accounts|);
    assert all[0] in all && all[0].derived.None? && all[0].vault == vault;
  }

  lemma RestoredAreDistinct(f: WalletBackup, vault: Vault)
    requires Restorable(f, vault)
    ensures
      var all := RestoredAll(f, vault, |f.accounts|);
      DistinctBy(Owner, all) && DistinctBy(Rank, all) && DistinctBy(Slot, all)
  {
    var all := RestoredAll(f, vault, |f.accounts|);
    forall i | 0 <= i < |all| ensures Owner(all[i]) == OwnerOf(f.accounts[i]) {
    }
  }

  lemma RestoredAreContiguous(f: WalletBackup, vault: Vault)
    requires Restorable(f, vault)
    ensures Contiguous(RestoredAll(f, vault, |f.accounts|))
  {
    var all := RestoredAll(f, vault, |f.accounts|);
    forall a, i: nat | a in all && i < Derivation(a) ensures HasSlot(all, a.vault.owner, i) {
      assert all[i] in all && Derivation(all[i]) == i;
    }
  }

  /** The restored book satisfies every rule of saved accounts on its network, its derivations consecutive. */
  lemma RestoredBookIsValid(f: WalletBackup, vault: Vault, n: Networks)
    requires Restorable(f, vault) && Allowed(n, vault.genesis)
    ensures Selected(f, vault).Some? && BookOk(Selected(f, vault).value, n)
    ensures Contiguous(Records(Selected(f, vault).value))
  {
    var all, b := RestoredAll(f, vault, |f.accounts|), BookAfter(f, vault, |f.accounts|);
    SelectionIsFound(f, vault);
    RestoredRecords(f, vault, |f.accounts|);
    SelectKeepsRecords(b, f.accounts[f.selected].identity.owner);
    RestoredAreDistinct(f, vault);
    RestoredAreContiguous(f, vault);
    forall a | a in all ensures AccountOk(a, all, n) {
      var i :| 0 <= i < |all| && all[i] == a;
      RestoredIsOk(f, vault, n, i);
    }
  }

  /** A restored book exports the very accounts and selection of the backup, under the new envelope. */
  lemma RestoredExportsTheSame(f: WalletBackup, vault: Vault)
    requires Restorable(f, vault)
    ensures Selected(f, vault).Some?
    ensures ExportWallet(Selected(f, vault).value)
         == Some(if |f.accounts| == 1 then BareVault(vault) else Accounts(f.(vault := vault)))
  {
    var n := |f.accounts|;
    SelectionIsFound(f, vault);
    RestoredRecords(f, vault, n);
    SelectKeepsRecords(BookAfter(f, vault, n), f.accounts[f.selected].identity.owner);
    WholeWallet(RestoredAll(f, vault, n), vault.owner);
    assert PublicAll(RestoredAll(f, vault, n)) == f.accounts;
    SortedAlready(f.accounts, IndexOf);
  }

  lemma {:induction false} WholeWallet(s: seq<StoredAccount>, wallet: Id)
    requires forall i :: 0 <= i < |s| ==> s[i].vault.owner == wallet
    ensures WalletRecords(s, wallet) == s
  {
    if s != [] {
      WholeWallet(s[..|s| - 1], wallet);
    }
  }

  /** The round trip: what a valid book with several accounts exports, parsed and restored under a re-encrypted
      vault, exports the same accounts and selection again, names trimmed. */
  lemma BackupRoundTrip(b: Book, n: Networks, vault: Vault)
    requires BookOk(b, n) && Contiguous(Records(b)) && b.active.Some? && |PublicAccounts(b)| > 1
    requires vault.owner == b.active.value.vault.owner && vault.address == b.active.value.vault.address
    ensures
      var f := ExportWallet(b).value.backup;
      var parsed := f.(accounts := TrimmedNames(f.accounts));
      && Restorable(parsed, vault) && Selected(parsed, vault).Some?
      && ExportWallet(Selected(parsed, vault).value) == Some(Accounts(parsed.(vault := vault)))
  {
    ExportAlwaysParses(b, n);
    var f := ExportWallet(b).value.backup;
    var parsed := f.(accounts := TrimmedNames(f.accounts));
    forall i | 0 <= i < |f.accounts| ensures NameOk(parsed.accounts[i].name) {
      TrimTwice(f.accounts[i].name);
    }
    assert forall i :: 0 <= i < |f.accounts| ==> OwnerOf(parsed.accounts[i]) == OwnerOf(f.accounts[i]);
    RestoredExportsTheSame(parsed, vault);
  }
}
