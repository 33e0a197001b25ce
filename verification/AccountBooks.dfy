/** The wallet's accounts: one active, the others beside it, and the rules every saved book satisfies. */
module AccountBooks {
  import opened MintTypes
  import opened Sorting

  const MAX_ACCOUNTS: nat := 20
  const MAX_SAFE: nat := 0x1F_FFFF_FFFF_FFFF

  datatype Identity = Identity(owner: Id, address: Id)

  /** An encrypted recovery phrase; `envelope` stands for its salt, nonce and ciphertext. */
  datatype Vault = Vault(genesis: Id, owner: Id, address: Id, envelope: Id)

  datatype Derived = Derived(identity: Identity, index: nat)

  datatype Grant = Grant(owner: Id, genesis: Id)

  datatype Passkey = Passkey(owner: Id, address: Id, genesis: Id, credential: Id)

  datatype StoredAccount = StoredAccount(
    vault: Vault,
    derived: Option<Derived>,
    name: string,
    accountIndex: nat,
    backed: bool,
    grants: map<Id, Grant>,
    passkey: Option<Passkey>)

  datatype Book = Book(active: Option<StoredAccount>, others: seq<StoredAccount>)

  /** The networks a wallet may hold: one pinned network, or any the build knows. */
  datatype Networks = Networks(pinned: Option<Id>, known: set<Id>)

  predicate Allowed(n: Networks, genesis: Id) {
    if n.pinned.Some? then genesis == n.pinned.value else genesis in n.known
  }

  // ---- Keys of an account ---------------------------------------------------------------------------

  function RecordIdentity(a: StoredAccount): Identity {
    if a.derived.Some? then a.derived.value.identity else Identity(a.vault.owner, a.vault.address)
  }

  function Owner(a: StoredAccount): Id {
    RecordIdentity(a).owner
  }

  function Rank(a: StoredAccount): nat {
    a.accountIndex
  }

  /** The wallet's root is derivation 0. */
  function Derivation(a: StoredAccount): nat {
    if a.derived.Some? then a.derived.value.index else 0
  }

  /** An account's place in its wallet. */
  function Slot(a: StoredAccount): (Id, nat) {
    (a.vault.owner, Derivation(a))
  }

  // ---- Names ----------------------------------------------------------------------------------------

  predicate Within(c: char, low: int, high: int) {
    low <= c as int <= high
  }

  /** White space and line ends, which trimming removes at both ends. */
  predicate IsSpace(c: char) {
    Within(c, 0x9, 0xD) || c as int in {0x20, 0xA0, 0x1680, 0x2028, 0x2029, 0x202F, 0x205F, 0x3000, 0xFEFF}
    || Within(c, 0x2000, 0x200A)
  }

  /** The Unicode categories Cc and Cf, of version 15. */
  predicate IsControl(c: char) {
    Within(c, 0, 0x1F) || Within(c, 0x7F, 0x9F)
    || c as int in {0xAD, 0x61C, 0x6DD, 0x70F, 0x8E2, 0x180E, 0xFEFF, 0x1_10BD, 0x1_10CD, 0xE_0001}
    || Within(c, 0x600, 0x605) || Within(c, 0x890, 0x891) || Within(c, 0x200B, 0x200F) || Within(c, 0x202A, 0x202E)
    || Within(c, 0x2060, 0x2064) || Within(c, 0x2066, 0x206F) || Within(c, 0xFFF9, 0xFFFB)
    || Within(c, 0x1_3430, 0x1_343F) || Within(c, 0x1_BCA0, 0x1_BCA3) || Within(c, 0x1_D173, 0x1_D17A)
    || Within(c, 0xE_0020, 0xE_007F)
  }

  /** Length in UTF-16 code units. */
  function Units(s: string): nat {
    if s == "" then 0 else (if s[0] as int < 0x1_0000 then 1 else 2) + Units(s[1..])
  }

  function TrimStart(s: string): string {
    if s != "" && IsSpace(s[0]) then TrimStart(s[1..]) else s
  }

  function TrimEnd(s: string): string {
    if s != "" && IsSpace(s[|s| - 1]) then TrimEnd(s[..|s| - 1]) else s
  }

  function Trim(s: string): string {
    TrimEnd(TrimStart(s))
  }

  /** `accountName` accepts it: 1 to 32 code units once trimmed, none of them a control or format character. */
  predicate NameOk(s: string) {
    0 < Units(Trim(s)) <= 32 && forall c <- Trim(s) :: !IsControl(c)
  }

  ghost predicate Blank(s: string) {
    forall c <- s :: IsSpace(c)
  }

  /** Neither end is blank. */
  ghost predicate Bare(s: string) {
    s != "" ==> !IsSpace(s[0]) && !IsSpace(s[|s| - 1])
  }

  lemma {:induction false} LeadIsTrimmed(lead: string, s: string)
    requires Blank(lead) && (s != "" ==> !IsSpace(s[0]))
    ensures TrimStart(lead + s) == s
  {
    if lead == "" {
      assert lead + s == s;
    } else {
      LeadIsTrimmed(lead[1..], s);
      assert (lead + s)[1..] == lead[1..] + s;
    }
  }

  lemma {:induction false} TrailIsTrimmed(s: string, trail: string)
    requires Blank(trail) && (s != "" ==> !IsSpace(s[|s| - 1]))
    ensures TrimEnd(s + trail) == s
  {
    if trail == "" {
      assert s + trail == s;
    } else {
      var k := |trail| - 1;
      TrailIsTrimmed(s, trail[..k]);
      assert (s + trail)[..|s + trail| - 1] == s + trail[..k];
    }
  }

  /** Trimming takes the blanks off both ends, and the name is accepted exactly if what is left has 1 to 32 code units
      and no control or format character. */
  lemma NamesAreTrimmed(lead: string, name: string, trail: string)
    requires Blank(lead) && Bare(name) && Blank(trail)
    ensures Trim(lead + name + trail) == name
    ensures NameOk(lead + name + trail) <==> 1 <= Units(name) <= 32 && forall c <- name :: !IsControl(c)
  {
    if name == "" {
      assert lead + name + trail == (lead + trail) + "";
      LeadIsTrimmed(lead + trail, "");
    } else {
      assert lead + name + trail == lead + (name + trail);
      LeadIsTrimmed(lead, name + trail);
      TrailIsTrimmed(name, trail);
    }
  }

  function Decimal(n: nat): string {
    if n < 10 then [DigitOf(n)] else Decimal(n / 10) + [DigitOf(n % 10)]
  }

  function DigitOf(d: nat): char
    requires d < 10
  {
    ['0', '1', '2', '3', '4', '5', '6', '7', '8', '9'][d]
  }

  function AccountName(n: nat): string {
    "Account " + Decimal(n)
  }

  function PowerOfTen(k: nat): nat {
    if k == 0 then 1 else 10 * PowerOfTen(k - 1)
  }

  lemma {:induction false} DecimalIsShort(n: nat, k: nat)
    requires n < PowerOfTen(k) && k > 0
    ensures 0 < |Decimal(n)| <= k && forall c <- Decimal(n) :: '0' <= c <= '9'
  {
    if n >= 10 {
      assert PowerOfTen(1) == 10;
      DecimalIsShort(n / 10, k - 1);
    }
  }

  lemma {:induction false} PlainUnits(s: string)
    requires forall c <- s :: ' ' <= c <= '~'
    ensures Units(s) == |s|
  {
    if s != "" {
      assert s[0] in s && forall c <- s[1..] :: c in s;
      PlainUnits(s[1..]);
    }
  }

  lemma TrimmedAlready(s: string)
    requires s != "" && !IsSpace(s[0]) && !IsSpace(s[|s| - 1])
    ensures Trim(s) == s
  {
  }

  lemma {:induction false} TrimmedStart(s: string)
    ensures TrimStart(s) == "" || !IsSpace(TrimStart(s)[0])
    ensures TrimStart(TrimStart(s)) == TrimStart(s)
  {
    if s != "" && IsSpace(s[0]) {
      TrimmedStart(s[1..]);
    }
  }

  lemma {:induction false} TrimmedEnd(s: string)
    ensures TrimEnd(s) == "" || !IsSpace(TrimEnd(s)[|TrimEnd(s)| - 1])
    ensures TrimEnd(s) <= s && (s != "" && !IsSpace(s[0]) ==> TrimEnd(s) != "")
  {
    if s != "" && IsSpace(s[|s| - 1]) {
      TrimmedEnd(s[..|s| - 1]);
    }
  }

  /** Trimming a trimmed name changes nothing. */
  lemma TrimTwice(s: string)
    ensures Trim(Trim(s)) == Trim(s) && (NameOk(s) ==> NameOk(Trim(s)))
  {
    TrimmedStart(s);
    TrimmedEnd(TrimStart(s));
    if Trim(s) != "" {
      TrimmedAlready(Trim(s));
    }
  }

  lemma GivenNameIsOk(n: nat)
    requires n <= MAX_SAFE
    ensures NameOk(AccountName(n)) && Trim(AccountName(n)) == AccountName(n)
  {
    assert PowerOfTen(4) == 10_000 && PowerOfTen(8) == 10_000 * PowerOfTen(4)
        && PowerOfTen(12) == 10_000 * PowerOfTen(8) && PowerOfTen(16) == 10_000 * PowerOfTen(12);
    DecimalIsShort(n, 16);
    PlainName(Decimal(n));
  }

  lemma PlainName(d: string)
    requires 0 < |d| <= 16 && forall c <- d :: '0' <= c <= '9'
    ensures NameOk("Account " + d) && Trim("Account " + d) == "Account " + d
  {
    var name := "Account " + d;
    assert d[|d| - 1] in d && name[0] == 'A' && name[|name| - 1] == d[|d| - 1];
    forall c | c in name ensures ' ' <= c <= '~' {
      assert c in "Account " || c in d;
    }
    TrimmedAlready(name);
    PlainUnits(name);
  }

  // ---- Records --------------------------------------------------------------------------------------

  function Listed(b: Book): seq<StoredAccount> {
    (if b.active.Some? then [b.active.value] else []) + b.others
  }

  /** All accounts in the order of their index. */
  function Records(b: Book): seq<StoredAccount> {
    Sort(Listed(b), Rank)
  }

  // ---- The validator --------------------------------------------------------------------------------

  predicate PasskeyOk(k: Passkey, v: Vault) {
    k.owner == v.owner && k.address == v.address && k.genesis == v.genesis
  }

  /** One record's own rules, and its root: a derived account carries its wallet's root vault unchanged. */
  predicate AccountOk(a: StoredAccount, all: seq<StoredAccount>, n: Networks) {
    && Allowed(n, a.vault.genesis) && NameOk(a.name) && 0 < a.accountIndex <= MAX_SAFE
    && (a.derived.Some? ==>
          0 < a.derived.value.index < MAX_ACCOUNTS && exists r <- all :: r.derived.None? && r.vault == a.vault)
    && (forall g <- a.grants.Values :: g.owner == Owner(a) && Allowed(n, g.genesis))
    && (a.passkey.Some? ==> PasskeyOk(a.passkey.value, a.vault))
  }

  ghost predicate AllOk(all: seq<StoredAccount>, n: Networks) {
    && (forall a <- all :: AccountOk(a, all, n))
    && DistinctBy(Owner, all) && DistinctBy(Rank, all) && DistinctBy(Slot, all)
  }

  /** What `validateAccounts` accepts. */
  ghost predicate BookOk(b: Book, n: Networks) {
    |b.others| < MAX_ACCOUNTS && (b.active.None? ==> b.others == []) && AllOk(Records(b), n)
  }

  /** Every wallet's derivations are consecutive from its root. */
  ghost predicate Contiguous(all: seq<StoredAccount>) {
    forall a <- all, i: nat :: i < Derivation(a) ==> HasSlot(all, a.vault.owner, i)
  }

  predicate HasSlot(all: seq<StoredAccount>, wallet: Id, index: nat) {
    exists r <- all :: r.vault.owner == wallet && Derivation(r) == index
  }

  lemma SameElementsSameRules(s: seq<StoredAccount>, t: seq<StoredAccount>, a: StoredAccount, n: Networks)
    requires forall y :: y in s <==> y in t
    ensures AccountOk(a, s, n) <==> AccountOk(a, t, n)
  {
  }

  /** The rules may be checked in any order. */
  lemma RulesIgnoreOrder(s: seq<StoredAccount>, n: Networks)
    ensures AllOk(Sort(s, Rank), n) <==> AllOk(s, n)
    ensures Contiguous(Sort(s, Rank)) <==> Contiguous(s)
  {
    SortHas(s, Rank);
    SortDistinct(Owner, s, Rank);
    SortDistinct(Rank, s, Rank);
    SortDistinct(Slot, s, Rank);
    forall a ensures AccountOk(a, Sort(s, Rank), n) <==> AccountOk(a, s, n) {
      SameElementsSameRules(Sort(s, Rank), s, a, n);
    }
    forall wallet, i: nat ensures HasSlot(Sort(s, Rank), wallet, i) <==> HasSlot(s, wallet, i) {
    }
  }

  /** Two records of one wallet are the same derivation only if they are the same record. */
  predicate DerivationIsUnique(all: seq<StoredAccount>, i: nat)
    requires i < |all|
  {
    all[i].derived.Some? ==>
      !exists j :: 0 <= j < |all| && j != i && all[j].derived.Some? && Slot(all[j]) == Slot(all[i])
  }

  lemma UniqueDerivationsMeanDistinctSlots(all: seq<StoredAccount>)
    requires DistinctBy(Owner, all)
    requires forall i :: 0 <= i < |all| ==> DerivationIsUnique(all, i)
    requires forall a <- all :: a.derived.Some? ==> a.derived.value.index > 0
    ensures DistinctBy(Slot, all)
  {
    forall i, j | 0 <= i < j < |all| ensures Slot(all[i]) != Slot(all[j]) {
      assert DerivationIsUnique(all, i) && all[i] in all && all[j] in all;
      assert Owner(all[i]) != Owner(all[j]);
    }
  }

  // ---- Operations on a book -------------------------------------------------------------------------

  function MaxRank(s: seq<StoredAccount>): (m: nat)
    ensures forall a <- s :: a.accountIndex <= m
    ensures m > 0 ==> exists a <- s :: a.accountIndex == m
  {
    if s == [] then 0
    else
      var k := |s| - 1;
      var rest := MaxRank(s[..k]);
      assert s == s[..k] + [s[k]];
      if rest < s[k].accountIndex then s[k].accountIndex else rest
  }

  /** The largest derivation of a wallet. */
  function MaxDerivation(s: seq<StoredAccount>, wallet: Id): (m: nat)
    ensures forall a <- s :: a.vault.owner == wallet ==> Derivation(a) <= m
    ensures m > 0 ==> HasSlot(s, wallet, m)
  {
    if s == [] then 0
    else
      var k := |s| - 1;
      var rest := MaxDerivation(s[..k], wallet);
      assert s == s[..k] + [s[k]];
      if s[k].vault.owner == wallet && rest < Derivation(s[k]) then Derivation(s[k]) else rest
  }

  function NextDerivation(b: Book): nat
    requires b.active.Some?
  {
    MaxDerivation(Records(b), b.active.value.vault.owner) + 1
  }

  function Activated(b: Book, next: StoredAccount): Book {
    Book(Some(next), b.others + if b.active.Some? then [b.active.value] else [])
  }

  function NewRoot(b: Book, vault: Vault, backed: bool): StoredAccount {
    var index := MaxRank(Records(b)) + 1;
    StoredAccount(vault, None, AccountName(index), index, backed, map[], None)
  }

  /** `addAccount`; none when refused. */
  function AddAccount(b: Book, vault: Vault, backed: bool): Option<Book> {
    if |Records(b)| >= MAX_ACCOUNTS || exists a <- Records(b) :: a.vault.owner == vault.owner then None
    else Some(Activated(b, NewRoot(b, vault, backed)))
  }

  function NewDerived(b: Book, who: Identity, index: nat): StoredAccount
    requires b.active.Some?
  {
    StoredAccount(b.active.value.vault, Some(Derived(who, index)), AccountName(index + 1),
                  MaxRank(Records(b)) + 1, true, map[], b.active.value.passkey)
  }

  /** `addDerivedAccount`; none when refused. */
  function AddDerived(b: Book, who: Identity, index: nat): Option<Book> {
    if b.active.None? || !b.active.value.backed || |Records(b)| >= MAX_ACCOUNTS
       || index != NextDerivation(b) || index >= MAX_ACCOUNTS
       || exists a <- Records(b) :: Owner(a) == who.owner then None
    else Some(Activated(b, NewDerived(b, who, index)))
  }

  function FindOther(s: seq<StoredAccount>, owner: Id): (i: nat)
    ensures i <= |s| && (i < |s| ==> Owner(s[i]) == owner) && forall j :: 0 <= j < i ==> Owner(s[j]) != owner
  {
    if s == [] || Owner(s[0]) == owner then 0 else 1 + FindOther(s[1..], owner)
  }

  /** `selectAccount`; none when refused. */
  function Select(b: Book, owner: Id): Option<Book> {
    if b.active.Some? && Owner(b.active.value) == owner then Some(b)
    else
      var i := FindOther(b.others, owner);
      if i == |b.others| || b.active.None? then None
      else Some(Book(Some(b.others[i]), b.others[i := b.active.value]))
  }

  /** The number a decimal numeral stands for. */
  ghost function ValueOf(s: string): int {
    if s == "" then 0 else 10 * ValueOf(s[..|s| - 1]) + (s[|s| - 1] as int - '0' as int)
  }

  lemma {:induction false} DecimalMeans(n: nat)
    ensures ValueOf(Decimal(n)) == n
  {
    if n >= 10 {
      DecimalMeans(n / 10);
      assert Decimal(n)[..|Decimal(n)| - 1] == Decimal(n / 10);
    } else {
      assert Decimal(n)[..0] == "";
    }
  }

  /** `k` is one past the highest position. */
  ghost predicate IsNext(s: seq<StoredAccount>, k: nat) {
    (forall a <- s :: a.accountIndex < k) && (k == 1 || exists a <- s :: a.accountIndex == k - 1)
  }

  lemma MaxRankIsNext(b: Book)
    requires forall a <- Listed(b) :: a.accountIndex > 0
    ensures IsNext(Listed(b), MaxRank(Records(b)) + 1)
  {
    SortHas(Listed(b), Rank);
    var m := MaxRank(Records(b));
    if m > 0 {
      var a :| a in Records(b) && a.accountIndex == m;
      assert a in Listed(b);
    }
  }

  /** A new wallet is refused exactly if there are twenty accounts or it is there already. */
  lemma WalletIsAddedWhen(b: Book, vault: Vault, backed: bool)
    ensures AddAccount(b, vault, backed).Some?
       <==> |Listed(b)| < 20 && forall a <- Listed(b) :: a.vault.owner != vault.owner
  {
    SortHas(Listed(b), Rank);
  }

  /** An added wallet becomes the active account, a root at the next position, named after it, backed up or not as it
      was said to be, without grants or a passkey; the account that was active joins the others. */
  lemma AddedAccountIs(b: Book, vault: Vault, backed: bool)
    requires (forall a <- Listed(b) :: a.accountIndex > 0) && AddAccount(b, vault, backed).Some?
    ensures
      var c := AddAccount(b, vault, backed).value;
      && c.active.Some? && IsNext(Listed(b), c.active.value.accountIndex)
      && c.active.value.vault == vault && c.active.value.derived.None? && c.active.value.backed == backed
      && c.active.value.grants == map[] && c.active.value.passkey.None?
      && c.active.value.name == "Account " + Decimal(c.active.value.accountIndex)
      && c.others == b.others + if b.active.Some? then [b.active.value] else []
  {
    MaxRankIsNext(b);
  }

  /** A derived account is refused exactly if no wallet is active or backed up, there are twenty accounts, its index is
      not the active wallet's next one or is twenty, or its owner is there already. */
  lemma DerivedIsAddedWhen(b: Book, who: Identity, index: nat)
    ensures AddDerived(b, who, index).Some?
       <==> && b.active.Some? && b.active.value.backed && |Listed(b)| < 20 && 0 < index < 20
            && (forall a <- Listed(b) :: a.vault.owner == b.active.value.vault.owner ==> Derivation(a) < index)
            && (index == 1 || HasSlot(Listed(b), b.active.value.vault.owner, index - 1))
            && forall a <- Listed(b) :: Owner(a) != who.owner
  {
    if b.active.Some? {
      NextDerivationIs(b, index);
    }
    SortHas(Listed(b), Rank);
  }

  /** An added derived account is the active account of the same wallet, backed up, at the next position, named after
      its index, with the wallet's passkey; the account that was active joins the others. */
  lemma AddedDerivedIs(b: Book, who: Identity, index: nat)
    requires (forall a <- Listed(b) :: a.accountIndex > 0) && AddDerived(b, who, index).Some?
    ensures
      var c := AddDerived(b, who, index).value;
      && b.active.Some? && c.active.Some? && IsNext(Listed(b), c.active.value.accountIndex)
      && c.active.value.vault == b.active.value.vault && c.active.value.derived == Some(Derived(who, index))
      && c.active.value.backed && c.active.value.grants == map[]
      && c.active.value.passkey == b.active.value.passkey
      && c.active.value.name == "Account " + Decimal(index + 1)
      && c.others == b.others + [b.active.value]
  {
    MaxRankIsNext(b);
  }

  lemma NextDerivationIs(b: Book, index: nat)
    requires b.active.Some?
    ensures
      var wallet := b.active.value.vault.owner;
      NextDerivation(b) == index
      <==> && index > 0 && (forall a <- Listed(b) :: a.vault.owner == wallet ==> Derivation(a) < index)
           && (index == 1 || HasSlot(Listed(b), wallet, index - 1))
  {
    var wallet, top := b.active.value.vault.owner, NextDerivation(b) - 1;
    SortHas(Listed(b), Rank);
    assert top > 0 ==> HasSlot(Listed(b), wallet, top);
    if index > 1 && HasSlot(Listed(b), wallet, index - 1) {
      var a :| a in Listed(b) && a.vault.owner == wallet && Derivation(a) == index - 1;
      assert a in Records(b);
    }
  }

  /** Selecting the active account changes nothing. Otherwise the first other account of that owner and the active one
      change places. */
  lemma SelectedIs(b: Book, owner: Id)
    requires b.active.Some?
    ensures Owner(b.active.value) == owner ==> Select(b, owner) == Some(b)
    ensures forall i :: 0 <= i < |b.others| && Owner(b.active.value) != owner && Owner(b.others[i]) == owner
                        && (forall j :: 0 <= j < i ==> Owner(b.others[j]) != owner) ==>
              Select(b, owner) == Some(Book(Some(b.others[i]), b.others[i := b.active.value]))
  {
  }

  // ---- Selecting an account only moves the selection ------------------------------------------------

  lemma SwappedDistinct<K>(f: StoredAccount -> K, b: Book, i: nat)
    requires b.active.Some? && i < |b.others| && DistinctBy(f, Listed(b))
    ensures DistinctBy(f, Listed(Book(Some(b.others[i]), b.others[i := b.active.value])))
  {
    var s, t := Listed(b), Listed(Book(Some(b.others[i]), b.others[i := b.active.value]));
    assert t == s[0 := s[i + 1]][i + 1 := s[0]];
  }

  lemma SwappedHas(b: Book, i: nat, y: StoredAccount)
    requires b.active.Some? && i < |b.others|
    ensures y in Listed(Book(Some(b.others[i]), b.others[i := b.active.value])) <==> y in Listed(b)
  {
    var s, t := Listed(b), Listed(Book(Some(b.others[i]), b.others[i := b.active.value]));
    assert t == s[0 := s[i + 1]][i + 1 := s[0]];
    if y in s {
      var j :| 0 <= j < |s| && s[j] == y;
      assert t[if j == 0 then i + 1 else if j == i + 1 then 0 else j] == y;
    }
    if y in t {
      var j :| 0 <= j < |t| && t[j] == y;
      assert s[if j == 0 then i + 1 else if j == i + 1 then 0 else j] == y;
    }
  }

  lemma SelectKeepsRecords(b: Book, owner: Id)
    requires DistinctBy(Rank, Listed(b)) && Select(b, owner).Some?
    ensures Records(Select(b, owner).value) == Records(b)
  {
    var c := Select(b, owner).value;
    if c != b {
      var i := FindOther(b.others, owner);
      SwappedDistinct(Rank, b, i);
      SortAscends(Listed(b), Rank);
      SortAscends(Listed(c), Rank);
      SortHas(Listed(b), Rank);
      SortHas(Listed(c), Rank);
      forall y ensures y in Records(c) <==> y in Records(b) {
        SwappedHas(b, i, y);
      }
      AscendingIsUnique(Records(c), Records(b), Rank);
    }
  }

  /** The records stay exactly as they were, in the same order; only which one is active changes. */
  lemma SelectMovesOnlyTheSelection(b: Book, owner: Id, n: Networks)
    requires BookOk(b, n) && Select(b, owner).Some?
    ensures Records(Select(b, owner).value) == Records(b)
    ensures Select(b, owner).value.active.Some? && Owner(Select(b, owner).value.active.value) == owner
    ensures BookOk(Select(b, owner).value, n)
  {
    RulesIgnoreOrder(Listed(b), n);
    SelectKeepsRecords(b, owner);
  }

  /** It is refused exactly when no account has that owner. */
  lemma SelectFindsEveryAccount(b: Book, owner: Id)
    ensures Select(b, owner).Some? <==> b.active.Some? && exists a <- Listed(b) :: Owner(a) == owner
  {
    if b.active.Some? {
      var s := Listed(b);
      assert s[0] in s;
      var i := FindOther(b.others, owner);
      assert i < |b.others| ==> s[i + 1] in s;
      if a :| a in s && Owner(a) == owner {
        var j :| 0 <= j < |s| && s[j] == a;
        assert j > 0 ==> s[j] == b.others[j - 1];
      }
    }
  }

  // ---- Adding accounts ------------------------------------------------------------------------------

  /** No other record has its identity, its position or its place in its wallet. */
  ghost predicate Beside(x: StoredAccount, all: seq<StoredAccount>) {
    forall a <- all :: Owner(a) != Owner(x) && a.accountIndex != x.accountIndex && Slot(a) != Slot(x)
  }

  /** What a new record must satisfy beside those already there. */
  ghost predicate Fits(x: StoredAccount, all: seq<StoredAccount>, n: Networks) {
    AccountOk(x, [x] + all, n) && Beside(x, all)
  }

  lemma RotatedDistinct<K>(f: StoredAccount -> K, x: StoredAccount, b: Book)
    ensures DistinctBy(f, Listed(Activated(b, x)))
       <==> DistinctBy(f, Listed(b)) && forall a <- Listed(b) :: f(a) != f(x)
  {
    var rest := Activated(b, x).others;
    DistinctWithFirst(f, x, rest);
    assert Listed(Activated(b, x)) == [x] + rest;
    NewByElements(f, rest, x);
    if b.active.Some? {
      NewByElements(f, Listed(b), x);
      NewByPermutation(f, rest, Listed(b), x);
      DistinctWithLast(f, b.others, b.active.value);
      DistinctWithFirst(f, b.active.value, b.others);
    } else {
      assert Listed(b) == b.others == rest;
    }
  }

  lemma RotatedHas(x: StoredAccount, b: Book)
    ensures forall y :: y in Listed(Activated(b, x)) <==> y == x || y in Listed(b)
    ensures |Listed(Activated(b, x))| == |Listed(b)| + 1
  {
  }

  lemma MoreRecordsSameRules(a: StoredAccount, s: seq<StoredAccount>, t: seq<StoredAccount>, n: Networks)
    requires AccountOk(a, s, n) && forall y :: y in s ==> y in t
    ensures AccountOk(a, t, n)
  {
    if a.derived.Some? {
      var r :| r in s && r.derived.None? && r.vault == a.vault;
      assert r in t;
    }
  }

  lemma FittingKeepsRules(b: Book, x: StoredAccount, n: Networks)
    requires AllOk(Listed(b), n) && Fits(x, Listed(b), n)
    ensures AllOk(Listed(Activated(b, x)), n)
  {
    var s, t := Listed(b), Listed(Activated(b, x));
    RotatedHas(x, b);
    RotatedDistinct(Owner, x, b);
    RotatedDistinct(Rank, x, b);
    RotatedDistinct(Slot, x, b);
    forall a | a in t ensures AccountOk(a, t, n) {
      if a in s {
        MoreRecordsSameRules(a, s, t, n);
      } else {
        SameElementsSameRules(t, [x] + s, x, n);
      }
    }
  }

  lemma KeptRulesFit(b: Book, x: StoredAccount, n: Networks)
    requires AllOk(Listed(Activated(b, x)), n)
    ensures Fits(x, Listed(b), n)
  {
    var s, t := Listed(b), Listed(Activated(b, x));
    RotatedHas(x, b);
    RotatedDistinct(Owner, x, b);
    RotatedDistinct(Rank, x, b);
    RotatedDistinct(Slot, x, b);
    SameElementsSameRules(t, [x] + s, x, n);
  }

  /** Activating a new record keeps the book valid exactly when the record fits, with room for it. */
  lemma ActivatingKeeps(b: Book, x: StoredAccount, n: Networks)
    requires BookOk(b, n) && |Records(b)| < MAX_ACCOUNTS
    ensures BookOk(Activated(b, x), n) <==> Fits(x, Listed(b), n)
  {
    var c := Activated(b, x);
    RulesIgnoreOrder(Listed(b), n);
    RulesIgnoreOrder(Listed(c), n);
    SortHas(Listed(b), Rank);
    if Fits(x, Listed(b), n) {
      FittingKeepsRules(b, x, n);
    }
    if AllOk(Listed(c), n) {
      KeptRulesFit(b, x, n);
    }
  }

  lemma RootsStayContiguous(b: Book, x: StoredAccount)
    requires Contiguous(Listed(b)) && forall i: nat :: i < Derivation(x) ==> HasSlot(Listed(b), x.vault.owner, i)
    ensures Contiguous(Listed(Activated(b, x)))
  {
    var s, t := Listed(b), Listed(Activated(b, x));
    RotatedHas(x, b);
    forall a, i: nat | a in t && i < Derivation(a) ensures HasSlot(t, a.vault.owner, i) {
      assert HasSlot(s, a.vault.owner, i);
      var r :| r in s && r.vault.owner == a.vault.owner && Derivation(r) == i;
      assert r in t;
    }
  }

  lemma RootRules(x: StoredAccount, all: seq<StoredAccount>, n: Networks)
    requires x.derived.None? && x.grants == map[] && x.passkey.None? && x.accountIndex > 0
    requires x.accountIndex <= MAX_SAFE ==> NameOk(x.name)
    ensures AccountOk(x, all, n) <==> Allowed(n, x.vault.genesis) && x.accountIndex <= MAX_SAFE
  {
  }

  lemma RootNameIsOk(b: Book, vault: Vault, backed: bool)
    ensures NewRoot(b, vault, backed).accountIndex <= MAX_SAFE ==> NameOk(NewRoot(b, vault, backed).name)
  {
    if NewRoot(b, vault, backed).accountIndex <= MAX_SAFE {
      GivenNameIsOk(NewRoot(b, vault, backed).accountIndex);
    }
  }

  lemma RootBeside(b: Book, vault: Vault, backed: bool)
    requires AddAccount(b, vault, backed).Some?
    ensures Beside(NewRoot(b, vault, backed), Listed(b)) <==> forall a <- Listed(b) :: Owner(a) != vault.owner
  {
    SortHas(Listed(b), Rank);
    forall a | a in Listed(b)
      ensures a.accountIndex != NewRoot(b, vault, backed).accountIndex && a.vault.owner != vault.owner
    {
      assert a in Records(b);
    }
  }

  lemma RootFits(b: Book, vault: Vault, backed: bool, n: Networks)
    requires AddAccount(b, vault, backed).Some?
    ensures Fits(NewRoot(b, vault, backed), Listed(b), n)
       <==> Allowed(n, vault.genesis) && MaxRank(Records(b)) < MAX_SAFE
            && forall a <- Listed(b) :: Owner(a) != vault.owner
  {
    var x := NewRoot(b, vault, backed);
    RootNameIsOk(b, vault, backed);
    RootRules(x, [x] + Listed(b), n);
    RootBeside(b, vault, backed);
  }

  /** A new wallet keeps the book valid exactly when its network is allowed, nobody else has its identity, and
      positions have not run out; derivations stay consecutive in any case. */
  lemma AddAccountKeeps(b: Book, vault: Vault, backed: bool, n: Networks)
    requires BookOk(b, n) && Contiguous(Records(b)) && AddAccount(b, vault, backed).Some?
    ensures
      BookOk(AddAccount(b, vault, backed).value, n)
      <==> Allowed(n, vault.genesis) && MaxRank(Records(b)) < MAX_SAFE
           && forall a <- Records(b) :: Owner(a) != vault.owner
    ensures Contiguous(Records(AddAccount(b, vault, backed).value))
  {
    var x := NewRoot(b, vault, backed);
    ActivatingKeeps(b, x, n);
    RootFits(b, vault, backed, n);
    SortHas(Listed(b), Rank);
    AddedStaysContiguous(b, x, n);
  }

  lemma AddedStaysContiguous(b: Book, x: StoredAccount, n: Networks)
    requires Contiguous(Records(b)) && forall i: nat :: i < Derivation(x) ==> HasSlot(Listed(b), x.vault.owner, i)
    ensures Contiguous(Records(Activated(b, x)))
  {
    RulesIgnoreOrder(Listed(b), n);
    RulesIgnoreOrder(Listed(Activated(b, x)), n);
    RootsStayContiguous(b, x);
  }

  lemma ActiveIsOk(b: Book, n: Networks)
    requires BookOk(b, n) && b.active.Some?
    ensures b.active.value in Listed(b) && AccountOk(b.active.value, Listed(b), n)
  {
    RulesIgnoreOrder(Listed(b), n);
    assert b.active.value == Listed(b)[0];
  }

  lemma ActiveHasARoot(b: Book, n: Networks) returns (r: StoredAccount)
    requires BookOk(b, n) && b.active.Some?
    ensures r in Listed(b) && r.derived.None? && r.vault == b.active.value.vault
  {
    var a := b.active.value;
    ActiveIsOk(b, n);
    if a.derived.Some? {
      r :| r in Listed(b) && r.derived.None? && r.vault == a.vault;
    } else {
      r := a;
    }
  }

  lemma DerivedRules(x: StoredAccount, y: StoredAccount, all: seq<StoredAccount>, n: Networks)
    requires x.vault == y.vault && x.passkey == y.passkey && x.grants == map[] && x.accountIndex > 0 && NameOk(x.name)
    requires x.derived.Some? && 0 < x.derived.value.index < MAX_ACCOUNTS
    requires AccountOk(y, all, n) && exists r <- all :: r.derived.None? && r.vault == x.vault
    ensures AccountOk(x, all, n) <==> x.accountIndex <= MAX_SAFE
  {
  }

  /** The active account's own rules, root included, pass on to the derived one. */
  lemma DerivedIsOk(b: Book, who: Identity, index: nat, n: Networks)
    requires BookOk(b, n) && b.active.Some? && 0 < index < MAX_ACCOUNTS
    ensures AccountOk(NewDerived(b, who, index), [NewDerived(b, who, index)] + Listed(b), n)
       <==> MaxRank(Records(b)) < MAX_SAFE
  {
    var x, s := NewDerived(b, who, index), Listed(b);
    var all := [x] + s;
    var r := ActiveHasARoot(b, n);
    assert r in all;
    ActiveIsOk(b, n);
    MoreRecordsSameRules(b.active.value, s, all, n);
    GivenNameIsOk(index + 1);
    DerivedRules(x, b.active.value, all, n);
  }

  lemma DerivedFits(b: Book, who: Identity, index: nat, n: Networks)
    requires BookOk(b, n) && AddDerived(b, who, index).Some?
    ensures Fits(NewDerived(b, who, index), Listed(b), n) <==> MaxRank(Records(b)) < MAX_SAFE
  {
    var x := NewDerived(b, who, index);
    DerivedIsOk(b, who, index, n);
    SortHas(Listed(b), Rank);
    forall a | a in Listed(b) ensures Owner(a) != Owner(x) && a.accountIndex != x.accountIndex && Slot(a) != Slot(x) {
      assert a in Records(b);
    }
  }

  /** The next derivation of the active wallet keeps the book valid exactly while positions have not run out,
      and keeps derivations consecutive. */
  lemma AddDerivedKeeps(b: Book, who: Identity, index: nat, n: Networks)
    requires BookOk(b, n) && Contiguous(Records(b)) && AddDerived(b, who, index).Some?
    ensures BookOk(AddDerived(b, who, index).value, n) <==> MaxRank(Records(b)) < MAX_SAFE
    ensures Contiguous(Records(AddDerived(b, who, index).value))
  {
    var x := NewDerived(b, who, index);
    ActivatingKeeps(b, x, n);
    DerivedFits(b, who, index, n);
    SlotsBelowTheNext(b, n);
    AddedStaysContiguous(b, x, n);
  }

  lemma SlotsBelowTheNext(b: Book, n: Networks)
    requires BookOk(b, n) && Contiguous(Records(b)) && b.active.Some?
    ensures forall i: nat :: i < NextDerivation(b) ==> HasSlot(Listed(b), b.active.value.vault.owner, i)
  {
    var s, wallet, top := Listed(b), b.active.value.vault.owner, NextDerivation(b) - 1;
    SortHas(s, Rank);
    var r := ActiveHasARoot(b, n);
    forall i: nat | i <= top ensures HasSlot(s, wallet, i) {
      if i == 0 {
        assert r in s && Derivation(r) == 0;
      } else {
        assert HasSlot(Records(b), wallet, top);
        var a :| a in Records(b) && a.vault.owner == wallet && Derivation(a) == top;
        assert i < top ==> HasSlot(Records(b), a.vault.owner, i);
      }
    }
  }

  // ---- The book the wallet keeps --------------------------------------------------------------------

  function WithPasskey(b: Book, key: Option<Passkey>): Book {
    if b.active.None? then b
    else
      var wallet := b.active.value.vault.owner;
      Book(Some(b.active.value.(passkey := key)),
           seq(|b.others|, i requires 0 <= i < |b.others| =>
             if b.others[i].vault.owner == wallet then b.others[i].(passkey := key) else b.others[i]))
  }

  /** Exactly the accounts of the active wallet, the active one among them, get the passkey or lose theirs. */
  lemma PasskeysAre(b: Book, key: Option<Passkey>)
    requires b.active.Some?
    ensures |Listed(WithPasskey(b, key))| == |Listed(b)|
    ensures forall i :: 0 <= i < |Listed(b)| ==>
              var a := Listed(b)[i];
              Listed(WithPasskey(b, key))[i]
              == a.(passkey := if a.vault.owner == b.active.value.vault.owner then key else a.passkey)
  {
  }

  /** The same records but for their passkeys. */
  ghost predicate Rekeyed(s: seq<StoredAccount>, t: seq<StoredAccount>) {
    |t| == |s| && forall i :: 0 <= i < |s| ==> t[i] == s[i].(passkey := t[i].passkey)
  }

  lemma RekeyedDistinct<K>(f: StoredAccount -> K, s: seq<StoredAccount>, t: seq<StoredAccount>)
    requires |t| == |s| && (forall i :: 0 <= i < |s| ==> f(t[i]) == f(s[i])) && DistinctBy(f, s)
    ensures DistinctBy(f, t)
  {
  }

  lemma SameOwnerSameRecord(s: seq<StoredAccount>, r: StoredAccount, q: StoredAccount)
    requires DistinctBy(Owner, s) && r in s && q in s && Owner(r) == Owner(q)
    ensures r == q
  {
  }

  /** All accounts of one wallet carry the same vault. */
  lemma OneVaultPerWallet(s: seq<StoredAccount>, n: Networks, a: StoredAccount, c: StoredAccount)
    requires AllOk(s, n) && a in s && c in s && a.vault.owner == c.vault.owner
    ensures a.vault == c.vault
  {
    var r := RootOf(s, n, a);
    var q := RootOf(s, n, c);
    SameOwnerSameRecord(s, r, q);
  }

  lemma RootOf(s: seq<StoredAccount>, n: Networks, a: StoredAccount) returns (r: StoredAccount)
    requires AllOk(s, n) && a in s
    ensures r in s && r.derived.None? && r.vault == a.vault
  {
    if a.derived.Some? {
      assert AccountOk(a, s, n);
      r :| r in s && r.derived.None? && r.vault == a.vault;
    } else {
      r := a;
    }
  }

  lemma RekeyedRules(s: seq<StoredAccount>, t: seq<StoredAccount>, i: nat, n: Networks)
    requires Rekeyed(s, t) && i < |s| && AccountOk(s[i], s, n)
    requires t[i].passkey.Some? ==> PasskeyOk(t[i].passkey.value, t[i].vault)
    ensures AccountOk(t[i], t, n)
  {
    if s[i].derived.Some? {
      var r :| r in s && r.derived.None? && r.vault == s[i].vault;
      var j :| 0 <= j < |s| && s[j] == r;
      assert t[j] in t;
    }
  }

  lemma RekeyedKeeps(s: seq<StoredAccount>, t: seq<StoredAccount>, n: Networks)
    requires Rekeyed(s, t) && AllOk(s, n)
    requires forall i :: 0 <= i < |t| && t[i].passkey.Some? ==> PasskeyOk(t[i].passkey.value, t[i].vault)
    ensures AllOk(t, n)
  {
    RekeyedDistinct(Owner, s, t);
    RekeyedDistinct(Rank, s, t);
    RekeyedDistinct(Slot, s, t);
    forall a | a in t ensures AccountOk(a, t, n) {
      var i :| 0 <= i < |t| && t[i] == a;
      assert s[i] in s;
      RekeyedRules(s, t, i, n);
    }
  }

  lemma PasskeyListed(b: Book, key: Option<Passkey>)
    requires b.active.Some?
    ensures
      var s, t := Listed(b), Listed(WithPasskey(b, key));
      && Rekeyed(s, t) && |s| > 0 && s[0] == b.active.value
      && forall i :: 0 <= i < |s| ==> t[i].passkey == if s[i].vault.owner == s[0].vault.owner then key else s[i].passkey
  {
  }

  lemma PasskeyFits(s: seq<StoredAccount>, i: nat, key: Option<Passkey>, n: Networks)
    requires AllOk(s, n) && i < |s| && (key.Some? ==> PasskeyOk(key.value, s[0].vault))
    ensures
      var k := if s[i].vault.owner == s[0].vault.owner then key else s[i].passkey;
      k.Some? ==> PasskeyOk(k.value, s[i].vault)
  {
    assert s[i] in s && s[0] in s;
    if s[i].vault.owner == s[0].vault.owner {
      OneVaultPerWallet(s, n, s[i], s[0]);
    } else {
      assert AccountOk(s[i], s, n);
    }
  }

  /** A passkey made for the active wallet keeps the book valid, and so does removing it. */
  lemma PasskeyKeeps(b: Book, key: Option<Passkey>, n: Networks)
    requires BookOk(b, n) && b.active.Some?
    requires key.Some? ==>
               var v := b.active.value.vault;
               key.value.owner == v.owner && key.value.address == v.address && key.value.genesis == v.genesis
    ensures BookOk(WithPasskey(b, key), n)
  {
    var s, t := Listed(b), Listed(WithPasskey(b, key));
    PasskeyListed(b, key);
    RulesIgnoreOrder(s, n);
    forall i | 0 <= i < |t| ensures t[i].passkey.Some? ==> PasskeyOk(t[i].passkey.value, t[i].vault) {
      PasskeyFits(s, i, key, n);
    }
    RekeyedKeeps(s, t, n);
    RulesIgnoreOrder(t, n);
  }

  ghost function OwnersOf(s: seq<StoredAccount>): set<Id> {
    set a <- s :: Owner(a)
  }

  ghost function RanksOf(s: seq<StoredAccount>): set<nat> {
    set a <- s :: Rank(a)
  }

  lemma NotSeen(s: seq<StoredAccount>, a: StoredAccount)
    ensures Owner(a) !in OwnersOf(s) <==> NewBy(Owner, s, a)
    ensures a.accountIndex !in RanksOf(s) <==> NewBy(Rank, s, a)
  {
  }

  lemma DistinctMeansNew<K>(f: StoredAccount -> K, all: seq<StoredAccount>, i: nat)
    requires DistinctBy(f, all) && i < |all|
    ensures forall a <- all[..i] :: f(a) != f(all[i])
  {
  }

  lemma DistinctSlotsMeanUnique(all: seq<StoredAccount>, i: nat)
    requires DistinctBy(Slot, all) && i < |all|
    ensures DerivationIsUnique(all, i)
  {
  }

  /** Each refusal of the validator is a broken rule. */
  lemma BrokenRule(all: seq<StoredAccount>, i: nat, n: Networks)
    requires i < |all|
    requires !AccountOk(all[i], all, n) || !DerivationIsUnique(all, i)
          || Owner(all[i]) in OwnersOf(all[..i]) || all[i].accountIndex in RanksOf(all[..i])
    ensures !AllOk(all, n)
  {
    if AllOk(all, n) {
      DistinctMeansNew(Owner, all, i);
      DistinctMeansNew(Rank, all, i);
      DistinctSlotsMeanUnique(all, i);
    }
  }

  lemma SeenGrows(all: seq<StoredAccount>, i: nat)
    requires i < |all|
    ensures OwnersOf(all[..i + 1]) == OwnersOf(all[..i]) + {Owner(all[i])}
    ensures RanksOf(all[..i + 1]) == RanksOf(all[..i]) + {all[i].accountIndex}
  {
    var s := all[..i + 1];
    assert s == all[..i] + [all[i]];
    assert forall a :: a in s <==> a in all[..i] || a == all[i];
    assert Rank(all[i]) == all[i].accountIndex;
    forall x ensures x in OwnersOf(s) <==> x in OwnersOf(all[..i]) || x == Owner(all[i]) {
    }
    forall x ensures x in RanksOf(s) <==> x in RanksOf(all[..i]) || x == Rank(all[i]) {
    }
  }

  /** The first `i` records broke no rule. */
  ghost predicate CheckedUpto(all: seq<StoredAccount>, i: nat, n: Networks)
    requires i <= |all|
  {
    && (forall j :: 0 <= j < i ==> AccountOk(all[j], all, n) && DerivationIsUnique(all, j))
    && DistinctBy(Owner, all[..i]) && DistinctBy(Rank, all[..i])
  }

  lemma OneMoreChecked(all: seq<StoredAccount>, i: nat, n: Networks)
    requires i < |all| && CheckedUpto(all, i, n) && AccountOk(all[i], all, n) && DerivationIsUnique(all, i)
    requires Owner(all[i]) !in OwnersOf(all[..i]) && all[i].accountIndex !in RanksOf(all[..i])
    ensures CheckedUpto(all, i + 1, n)
  {
    assert all[..i + 1] == all[..i] + [all[i]];
    NotSeen(all[..i], all[i]);
    DistinctWithLast(Owner, all[..i], all[i]);
    DistinctWithLast(Rank, all[..i], all[i]);
  }

  lemma AllChecked(all: seq<StoredAccount>, n: Networks)
    requires CheckedUpto(all, |all|, n)
    ensures AllOk(all, n)
  {
    assert all[..|all|] == all;
    UniqueDerivationsMeanDistinctSlots(all);
  }

  /** The active account's fields stand in the book itself; the other accounts are kept beside them. */
  class AccountBook {
    var vault: Option<Vault>
    var derived: Option<Derived>
    var name: string
    var accountIndex: nat
    var backed: bool
    var grants: map<Id, Grant>
    var passkey: Option<Passkey>
    var otherAccounts: seq<StoredAccount>

    function ActiveRecord(): StoredAccount
      requires vault.Some?
      reads this
    {
      StoredAccount(vault.value, derived, name, accountIndex, backed, grants, passkey)
    }

    function View(): Book
      reads this
    {
      Book(if vault.Some? then Some(ActiveRecord()) else None, otherAccounts)
    }

    constructor ()
      ensures View() == Book(None, [])
    {
      vault, derived, name, accountIndex, backed, grants, passkey := None, None, "", 0, false, map[], None;
      otherAccounts := [];
    }

    method Activate(next: StoredAccount)
      modifies this
      ensures View() == Book(Some(next), old(otherAccounts))
    {
      vault, derived, name, accountIndex := Some(next.vault), next.derived, next.name, next.accountIndex;
      backed, grants, passkey := next.backed, next.grants, next.passkey;
    }

    method MayAdd(next: Vault) returns (ok: bool)
      ensures ok <==> AddAccount(View(), next, true).Some?
    {
      var all := Records(View());
      ok := |all| < MAX_ACCOUNTS && forall a <- all :: a.vault.owner != next.owner;
    }

    method Add(next: Vault, backed: bool) returns (ok: bool)
      modifies this
      ensures ok <==> AddAccount(old(View()), next, backed).Some?
      ensures View() == if ok then AddAccount(old(View()), next, backed).value else old(View())
    {
      ok := MayAdd(next);
      if ok {
        var index := MaxRank(Records(View())) + 1;
        var account := StoredAccount(next, None, AccountName(index), index, backed, map[], None);
        assert account == NewRoot(View(), next, backed);
        if vault.Some? {
          otherAccounts := otherAccounts + [ActiveRecord()];
        }
        Activate(account);
      }
    }

    method MayDerive(who: Identity, index: nat) returns (ok: bool)
      ensures ok <==> AddDerived(View(), who, index).Some?
    {
      var all := Records(View());
      ok := vault.Some? && backed && |all| < MAX_ACCOUNTS && index == NextDerivation(View()) && index < MAX_ACCOUNTS
            && forall a <- all :: Owner(a) != who.owner;
    }

    method Derive(who: Identity, index: nat) returns (ok: bool)
      modifies this
      ensures ok <==> AddDerived(old(View()), who, index).Some?
      ensures View() == if ok then AddDerived(old(View()), who, index).value else old(View())
    {
      ok := MayDerive(who, index);
      if ok {
        var previous := ActiveRecord();
        var next := StoredAccount(previous.vault, Some(Derived(who, index)), AccountName(index + 1),
                                  MaxRank(Records(View())) + 1, true, map[], previous.passkey);
        assert next == NewDerived(View(), who, index);
        otherAccounts := otherAccounts + [previous];
        Activate(next);
      }
    }

    method SelectAccount(owner: Id) returns (ok: bool)
      modifies this
      ensures ok <==> Select(old(View()), owner).Some?
      ensures View() == if ok then Select(old(View()), owner).value else old(View())
    {
      if vault.Some? && Owner(ActiveRecord()) == owner {
        return true;
      }
      var i := FindOther(otherAccounts, owner);
      if i == |otherAccounts| || vault.None? {
        return false;
      }
      var previous, next := ActiveRecord(), otherAccounts[i];
      otherAccounts := otherAccounts[i := previous];
      Activate(next);
      ok := true;
    }

    /** A wallet's passkey belongs to all of its accounts. */
    method SetWalletPasskey(key: Option<Passkey>)
      modifies this
      ensures View() == WithPasskey(old(View()), key)
    {
      for i := 0 to |otherAccounts|
        invariant |otherAccounts| == |old(otherAccounts)| && vault == old(vault)
        invariant View() == old(View()).(others := otherAccounts)
        invariant forall j :: 0 <= j < i ==> otherAccounts[j] == WithPasskey(old(View()), key).others[j]
        invariant forall j :: i <= j < |otherAccounts| ==> otherAccounts[j] == old(otherAccounts)[j]
      {
        if vault.Some? && otherAccounts[i].vault.owner == vault.value.owner {
          otherAccounts := otherAccounts[i := otherAccounts[i].(passkey := key)];
        }
      }
      passkey := key;
      assert otherAccounts == WithPasskey(old(View()), key).others;
    }

    /** `validateAccounts`: the first broken rule refuses the saved accounts. */
    method ValidateAccounts(n: Networks) returns (ok: bool)
      ensures ok <==> BookOk(View(), n)
    {
      if |otherAccounts| >= MAX_ACCOUNTS || (vault.None? && otherAccounts != []) {
        return false;
      }
      var all := Records(View());
      var owners: set<Id>, indices: set<nat> := {}, {};
      for i := 0 to |all|
        invariant owners == OwnersOf(all[..i]) && indices == RanksOf(all[..i]) && CheckedUpto(all, i, n)
      {
        var a := all[i];
        SeenGrows(all, i);
        if !AccountOk(a, all, n) || !DerivationIsUnique(all, i) || Owner(a) in owners || a.accountIndex in indices {
          BrokenRule(all, i, n);
          return false;
        }
        OneMoreChecked(all, i, n);
        owners, indices := owners + {Owner(a)}, indices + {a.accountIndex};
      }
      AllChecked(all, n);
      ok := true;
    }
  }
}
