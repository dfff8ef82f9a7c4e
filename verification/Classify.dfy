/** Sorting a batch of blocks into transactions per business: processBatch of worker/synchronizer.go. */
module Classify {
  import opened Prelude
  import opened Node
  import opened Balances
  import BigInt

  type Business = string

  // The registered addresses of one business.
  type Book = map<Address, WalletKind>

  // A transaction as the node reports it in a block.
  datatype ChainTx = ChainTx(hash: Hash, from: Address, to: Address, token: Address, contractWallet: Address)

  datatype Transaction = Transaction(business: Business, blockNumber: int, from: Address, to: Address, hash: Hash,
                                     token: Address, contractWallet: Address, kind: TxType)

  datatype Batch = Batch(blockHeight: nat, transactions: seq<Transaction>)

  // The two address lookups of one transaction.
  datatype Side = Sender | Recipient

  // What AddressExist answers for one business and block: the addresses registered meanwhile, and the
  // lookups that come too early for a registration or meet a database error. Either is answered like an
  // unknown address. `missed` goes by the place of the transaction in the block.
  datatype Lookups = Lookups(book: Book, missed: (nat, Side) -> bool)

  // What one pass over the batch reads: per block, its transactions (an error code gives a nil list
  // without an error), the business list, and for each business the address lookups.
  datatype TxAnswer = TxsFailed | TxsUnreported | Txs(list: seq<ChainTx>)
  datatype Reads = Reads(txs: nat -> TxAnswer, businesses: nat -> Option<seq<Business>>,
                         lookups: (nat, Business) -> Lookups)

  // A block with what was read for it.
  datatype Item = Item(header: Header, txs: seq<ChainTx>, businesses: seq<Business>, lookups: Business -> Lookups)

  function ReadOne(header: Header, feed: Reads, k: nat): Option<Item> {
    if feed.txs(k).TxsFailed? || feed.businesses(k).None? then None
    else Some(Item(header, if feed.txs(k).Txs? then feed.txs(k).list else [], feed.businesses(k).value,
                   b => feed.lookups(k, b)))
  }

  // What is read for the first k blocks; None when one of the reads fails.
  function ReadItems(headers: seq<Header>, feed: Reads, k: nat): (items: Option<seq<Item>>)
    requires k <= |headers|
    ensures items.Some? ==> |items.value| == k && forall i | 0 <= i < k :: items.value[i].header == headers[i]
  {
    if k == 0 then Some([]) else
      match ReadItems(headers, feed, k - 1)
      case None => None
      case Some(items) =>
        match ReadOne(headers[k - 1], feed, k - 1)
        case None => None
        case Some(item) => Some(items + [item])
  }

  function KindOf(book: Book, a: Address): Option<WalletKind> {
    if a in book then Some(book[a]) else None
  }

  function Answered(l: Lookups, i: nat, side: Side, a: Address): Option<WalletKind> {
    if l.missed(i, side) then None else KindOf(l.book, a)
  }

  // The five cases that concern a business; an address it does not own is an external one.
  function TypeOf(from: Option<WalletKind>, to: Option<WalletKind>): TxType {
    match (from, to)
    case (None, Some(User)) => Deposit
    case (Some(Hot), None) => Withdraw
    case (Some(User), Some(Hot)) => Collection
    case (Some(Hot), Some(Cold)) => Hot2Cold
    case (Some(Cold), Some(Hot)) => Cold2Hot
    case _ => Unknown
  }

  // The type by the answered lookups, for the transaction at place i.
  function TypeAt(l: Lookups, i: nat, tx: ChainTx): TxType {
    TypeOf(Answered(l, i, Sender, tx.from), Answered(l, i, Recipient, tx.to))
  }

  // The type by the registered addresses.
  function DueType(book: Book, tx: ChainTx): TxType {
    TypeOf(KindOf(book, tx.from), KindOf(book, tx.to))
  }

  function Labelled(b: Business, header: Header, tx: ChainTx, kind: TxType): Transaction {
    Transaction(b, header.number, tx.from, tx.to, tx.hash, tx.token, tx.contractWallet, kind)
  }

  function Matched(l: Lookups, b: Business, header: Header, txs: seq<ChainTx>): seq<Transaction> {
    if txs == [] then [] else
      var kind := TypeAt(l, |txs| - 1, Last(txs));
      Matched(l, b, header, txs[..|txs| - 1]) + if kind.Unknown? then [] else [Labelled(b, header, Last(txs), kind)]
  }

  // What one block contributes to a business, given what was looked up for that business only.
  function Share(b: Business, item: Item): seq<Transaction> {
    if b in item.businesses then Matched(item.lookups(b), b, item.header, item.txs) else []
  }

  // What a run of blocks contributes to a business, in order.
  function Contribution(b: Business, items: seq<Item>): seq<Transaction> {
    if |items| == 0 then [] else Contribution(b, items[..|items| - 1]) + Share(b, Last(items))
  }

  // The height of the last block that contributes something.
  function LastHeight(b: Business, items: seq<Item>): nat {
    if |items| == 0 then 0
    else if Share(b, Last(items)) != [] then BigInt.Uint64(Last(items).header.number)
    else LastHeight(b, items[..|items| - 1])
  }

  function Listed(items: seq<Item>): set<Business> {
    set i, b | 0 <= i < |items| && b in items[i].businesses :: b
  }

  // The specification of the emitted map: for each business its contribution, when there is one.
  function Classified(items: seq<Item>): map<Business, Batch> {
    map b | b in Listed(items) && Contribution(b, items) != [] ::
      Batch(LastHeight(b, items), Contribution(b, items))
  }

  // business_uid has a unique index.
  ghost predicate UniqueBusinesses(feed: Reads) {
    forall k | feed.businesses(k).Some? :: NoDuplicates(feed.businesses(k).value)
  }

  // An error and an unknown address give the same answer.
  method AddressExist(l: Lookups, i: nat, side: Side, a: Address) returns (exist: bool, kind: WalletKind)
    ensures (if exist then Some(kind) else None) == Answered(l, i, side, a)
    ensures !exist ==> kind == User
  {
    if l.missed(i, side) || a !in l.book {
      return false, User;
    }
    return true, l.book[a];
  }

  // The loop over one block's transactions, with the source's flags and its chain of cases.
  method MatchBlock(l: Lookups, b: Business, header: Header, txList: seq<ChainTx>) returns (matched: seq<Transaction>)
    ensures matched == Matched(l, b, header, txList)
  {
    matched := [];
    for i := 0 to |txList|
      invariant matched == Matched(l, b, header, txList[..i])
    {
      var tx := txList[i];
      assert txList[..i + 1][..i] == txList[..i];
      var existTo, toKind := AddressExist(l, i, Recipient, tx.to);
      var existFrom, fromKind := AddressExist(l, i, Sender, tx.from);
      if !existTo && !existFrom {
        continue;
      }
      var item := Transaction(b, header.number, tx.from, tx.to, tx.hash, tx.token, tx.contractWallet, Unknown);
      if !existFrom && (existTo && toKind == User) {
        item := item.(kind := Deposit);
      } else if (existFrom && fromKind == Hot) && !existTo {
        item := item.(kind := Withdraw);
      } else if (existFrom && fromKind == User) && (existTo && toKind == Hot) {
        item := item.(kind := Collection);
      } else if (existFrom && fromKind == Hot) && (existTo && toKind == Cold) {
        item := item.(kind := Hot2Cold);
      } else if (existFrom && fromKind == Cold) && (existTo && toKind == Hot) {
        item := item.(kind := Cold2Hot);
      } else {
        continue;
      }
      matched := matched + [item];
    }
    assert txList[..|txList|] == txList;
  }

  // What the map holds for a business that has seen `items`.
  ghost predicate Entered(m: map<Business, Batch>, b: Business, items: seq<Item>) {
    var whole := Contribution(b, items);
    && (b in m <==> whole != [])
    && (b in m ==> m[b] == Batch(LastHeight(b, items), whole))
  }

  lemma EnteredIsClassified(m: map<Business, Batch>, items: seq<Item>)
    requires forall b :: Entered(m, b, items)
    ensures m == Classified(items)
  {
    forall b | Contribution(b, items) != [] ensures b in Listed(items) {
      ContributorsAreListed(b, items);
    }
    assert forall b | b in m :: Entered(m, b, items);
    assert forall b | b in Classified(items) :: Entered(m, b, items);
  }

  lemma {:induction false} ContributorsAreListed(b: Business, items: seq<Item>)
    ensures Contribution(b, items) != [] ==> b in Listed(items)
  {
    if items != [] {
      ContributorsAreListed(b, items[..|items| - 1]);
      assert forall i | 0 <= i < |items| - 1 :: items[..|items| - 1][i] == items[i];
    }
  }

  // The blocks a business has seen while the loop stands at `item` and is done with the businesses `seen`.
  ghost function SeenBy(items: seq<Item>, item: Item, seen: seq<Business>, b: Business): seq<Item> {
    if b in seen then items + [item] else items
  }

  lemma ExtendEntry(m: map<Business, Batch>, b: Business, items: seq<Item>, item: Item)
    requires Entered(m, b, items)
    ensures var share := Share(b, item);
      var before := if b in m then m[b].transactions else [];
      Entered(if share == [] then m
          else m[b := Batch(BigInt.Uint64(item.header.number), before + share)], b, items + [item])
  {
  }

  // The loop over businesses for one block.
  method ClassifyBlock(m0: map<Business, Batch>, item: Item, ghost items: seq<Item>)
    returns (m: map<Business, Batch>)
    requires NoDuplicates(item.businesses)
    requires forall b :: Entered(m0, b, items)
    ensures forall b :: Entered(m, b, items + [item])
  {
    hide Contribution, LastHeight, Matched;
    m := m0;
    for j := 0 to |item.businesses|
      invariant forall b :: Entered(m, b, SeenBy(items, item, item.businesses[..j], b))
    {
      var business := item.businesses[j];
      ghost var before := m;
      ghost var seen := item.businesses[..j];
      assert item.businesses[..j + 1] == seen + [business];
      assert business !in seen;
      assert Entered(m, business, SeenBy(items, item, seen, business));
      ExtendEntry(m, business, items, item);
      var matched := MatchBlock(item.lookups(business), business, item.header, item.txs);
      if |matched| > 0 {
        if business !in m {
          m := m[business := Batch(BigInt.Uint64(item.header.number), matched)];
        } else {
          m := m[business := Batch(BigInt.Uint64(item.header.number), m[business].transactions + matched)];
        }
      }
      forall b ensures Entered(m, b, SeenBy(items, item, seen + [business], b)) {
        assert Entered(before, b, SeenBy(items, item, seen, b));
      }
    }
    assert item.businesses[..|item.businesses|] == item.businesses;
    forall b ensures Entered(m, b, items + [item]) {
      assert Entered(m, b, SeenBy(items, item, item.businesses, b));
      if b !in item.businesses {
        ExtendEntry(m, b, items, item);
      }
    }
  }

  // The loops of processBatch, up to storing: None when a read fails, otherwise the business map.
  method ClassifyBatch(headers: seq<Header>,
      feed: Reads) returns (result: Option<map<Business, Batch>>)
    requires UniqueBusinesses(feed)
    ensures result == match ReadItems(headers, feed, |headers|)
      case None => None
      case Some(items) => Some(Classified(items))
  {
    var m: map<Business, Batch> := map[];
    ghost var items: seq<Item> := [];
    for k := 0 to |headers|
      invariant ReadItems(headers, feed, k) == Some(items)
      invariant forall b :: Entered(m, b, items)
    {
      var answer := feed.txs(k);
      if answer.TxsFailed? {
        FailedReadStops(headers, feed, k + 1);
        return None;
      }
      var businessList := feed.businesses(k);
      if businessList.None? {
        FailedReadStops(headers, feed, k + 1);
        return None;
      }
      var item := Item(headers[k], if answer.Txs? then answer.list else [], businessList.value,
                       b => feed.lookups(k, b));
      m := ClassifyBlock(m, item, items);
      items := items + [item];
    }
    EnteredIsClassified(m, items);
    result := Some(m);
  }

  lemma {:induction false} FailedReadStops(headers: seq<Header>, feed: Reads, k: nat)
    requires k <= |headers| && ReadItems(headers, feed, k) == None
    ensures ReadItems(headers, feed, |headers|) == None
    decreases |headers| - k
  {
    if k < |headers| {
      FailedReadStops(headers, feed, k + 1);
    }
  }

  // Reading fails if and only if some block's transactions or business list cannot be read. Otherwise each block
  // comes with its own list, empty after an error code, its own businesses and its own lookups.
  lemma {:induction false} ReadsExactly(headers: seq<Header>, feed: Reads, k: nat)
    requires k <= |headers|
    ensures ReadItems(headers, feed, k) == None <==>
      exists j | 0 <= j < k :: feed.txs(j).TxsFailed? || feed.businesses(j) == None
    ensures ReadItems(headers, feed, k).Some? ==>
      forall j | 0 <= j < k :: IsRead(ReadItems(headers, feed, k).value[j], headers[j], feed, j)
  {
    if k > 0 {
      ReadsExactly(headers, feed, k - 1);
      var one := ReadOne(headers[k - 1], feed, k - 1);
      assert one == None <==> feed.txs(k - 1).TxsFailed? || feed.businesses(k - 1) == None;
      assert one.Some? ==> IsRead(one.value, headers[k - 1], feed, k - 1);
      hide IsRead, ReadOne;
    }
  }

  ghost predicate IsRead(item: Item, header: Header, feed: Reads, j: nat) {
    && item.header == header && Some(item.businesses) == feed.businesses(j)
    && item.txs == (if feed.txs(j).Txs? then feed.txs(j).list else [])
    && forall b :: item.lookups(b) == feed.lookups(j, b)
  }

  // A lookup that was answered with the kind, or like an address that is not registered.
  predicate Knows(l: Lookups, i: nat, side: Side, a: Address, kind: WalletKind) {
    !l.missed(i, side) && a in l.book && l.book[a] == kind
  }

  predicate Misses(l: Lookups, i: nat, side: Side, a: Address) {
    l.missed(i, side) || a !in l.book
  }

  // The case of each type, for the transaction at place i.
  predicate Concerns(l: Lookups, i: nat, tx: ChainTx, kind: TxType) {
    match kind
    case Deposit => Misses(l, i, Sender, tx.from) && Knows(l, i, Recipient, tx.to, User)
    case Withdraw => Knows(l, i, Sender, tx.from, Hot) && Misses(l, i, Recipient, tx.to)
    case Collection => Knows(l, i, Sender, tx.from, User) && Knows(l, i, Recipient, tx.to, Hot)
    case Hot2Cold => Knows(l, i, Sender, tx.from, Hot) && Knows(l, i, Recipient, tx.to, Cold)
    case Cold2Hot => Knows(l, i, Sender, tx.from, Cold) && Knows(l, i, Recipient, tx.to, Hot)
    case Unknown => false
  }

  // An emitted transaction carries all the node reported of it, and the type whose case holds.
  predicate Reports(t: Transaction, b: Business, header: Header, tx: ChainTx, l: Lookups, i: nat) {
    && t.business == b && t.blockNumber == header.number && t.hash == tx.hash
    && t.from == tx.from && t.to == tx.to && t.token == tx.token && t.contractWallet == tx.contractWallet
    && Concerns(l, i, tx, t.kind)
  }

  // A block's share in full: the transactions for which one of the five cases holds by their own two lookups, each
  // once, in the order of the block.
  lemma {:induction false} MatchedInOrder(l: Lookups, b: Business, header: Header, txs: seq<ChainTx>)
    returns (at: seq<nat>)
    ensures var matched := Matched(l, b, header, txs);
      && |at| == |matched|
      && forall k | 0 <= k < |at| :: at[k] < |txs| && Reports(matched[k], b, header, txs[at[k]], l, at[k])
    ensures forall j, k | 0 <= j < k < |at| :: at[j] < at[k]
    ensures forall i: nat | i < |txs| :: i in at <==> exists kind :: Concerns(l, i, txs[i], kind)
  {
    at := [];
    if txs != [] {
      var init, last := txs[..|txs| - 1], |txs| - 1;
      at := MatchedInOrder(l, b, header, init);
      assert last !in at;
      var kind := TypeAt(l, last, txs[last]);
      assert kind.Unknown? ==> forall k :: !Concerns(l, last, txs[last], k);
      assert !kind.Unknown? ==> Reports(Labelled(b, header, txs[last], kind), b, header, txs[last], l, last);
      hide Concerns, TypeOf, KindOf, Answered;
      if !kind.Unknown? {
        at := at + [last];
      }
    }
  }

  // A transaction is in a block's share if and only if one of the five cases holds for a transaction of the
  // block by its two lookups, and then it carries that case.
  lemma {:induction false} MatchedExactly(l: Lookups, b: Business, header: Header, txs: seq<ChainTx>, t: Transaction)
    ensures t in Matched(l, b, header, txs) <==>
      exists i | 0 <= i < |txs| ::
        !TypeAt(l, i, txs[i]).Unknown? && t == Labelled(b, header, txs[i], TypeAt(l, i, txs[i]))
  {
    if txs != [] {
      var init := txs[..|txs| - 1];
      MatchedExactly(l, b, header, init, t);
      assert forall i | 0 <= i < |init| :: txs[i] == init[i];
    }
  }

  // The cases exclude each other.
  lemma CasesExclude(from: Option<WalletKind>, to: Option<WalletKind>)
    ensures TypeOf(from, to).Deposit? <==> from == None && to == Some(User)
    ensures TypeOf(from, to).Withdraw? <==> from == Some(Hot) && to == None
    ensures TypeOf(from, to).Collection? <==> from == Some(User) && to == Some(Hot)
    ensures TypeOf(from, to).Hot2Cold? <==> from == Some(Hot) && to == Some(Cold)
    ensures TypeOf(from, to).Cold2Hot? <==> from == Some(Cold) && to == Some(Hot)
  {
  }

  // A matched transaction is of the block and the business, and no move between own wallets has the same
  // address on both sides, whichever lookups are missed.
  lemma {:induction false} MatchedIsGenuine(l: Lookups, b: Business, header: Header, txs: seq<ChainTx>)
    ensures forall t | t in Matched(l, b, header, txs) ::
      && !t.kind.Unknown? && t.business == b && t.blockNumber == header.number
      && (MovesWithin(t.kind) ==> t.from != t.to)
  {
    if txs != [] {
      MatchedIsGenuine(l, b, header, txs[..|txs| - 1]);
      var tx, i := Last(txs), |txs| - 1;
      CasesExclude(Answered(l, i, Sender, tx.from), Answered(l, i, Recipient, tx.to));
    }
  }

  // Blocks that agree on everything but what concerns other businesses.
  ghost predicate SameFor(b: Business, x: Item, y: Item) {
    x.header == y.header && x.txs == y.txs && (b in x.businesses <==> b in y.businesses) && x.lookups(b) == y.lookups(b)
  }

  lemma {:induction false} SameContribution(b: Business, items: seq<Item>, others: seq<Item>)
    requires |items| == |others| && forall i | 0 <= i < |items| :: SameFor(b, items[i], others[i])
    ensures Contribution(b, items) == Contribution(b, others) && LastHeight(b, items) == LastHeight(b, others)
  {
    if |items| > 0 {
      assert SameFor(b, Last(items), Last(others));
      SameContribution(b, items[..|items| - 1], others[..|others| - 1]);
    }
  }

  // Changing the addresses, lookups or listing of other businesses leaves a business's entry as it is.
  lemma OthersDoNotMatter(b: Business, items: seq<Item>, others: seq<Item>)
    requires |items| == |others| && forall i | 0 <= i < |items| :: SameFor(b, items[i], others[i])
    ensures b in Classified(items) <==> b in Classified(others)
    ensures b in Classified(items) ==> Classified(items)[b] == Classified(others)[b]
  {
    SameContribution(b, items, others);
    ContributorsAreListed(b, items);
    ContributorsAreListed(b, others);
  }

  // ---- Missed lookups ----

  // The lookups as they should be answered.
  function Sure(book: Book): Lookups {
    Lookups(book, (i, side) => false)
  }

  // What a block contributes by the registered addresses.
  function Due(b: Business, item: Item): seq<Transaction> {
    if b in item.businesses then Matched(Sure(item.lookups(b).book), b, item.header, item.txs) else []
  }

  function DueContribution(b: Business, items: seq<Item>): seq<Transaction> {
    if |items| == 0 then [] else DueContribution(b, items[..|items| - 1]) + Due(b, Last(items))
  }

  // Every transaction has the type its registered addresses give it. A missed lookup need not change it.
  ghost predicate TypesRight(l: Lookups, txs: seq<ChainTx>) {
    forall i | 0 <= i < |txs| :: TypeAt(l, i, txs[i]) == DueType(l.book, txs[i])
  }

  ghost predicate ReadRight(b: Business, item: Item) {
    b in item.businesses ==> TypesRight(item.lookups(b), item.txs)
  }

  // When every type is right, whatever else, each business is sent what its registered addresses call for.
  lemma {:induction false} RightTypesSuffice(b: Business, items: seq<Item>)
    requires forall i | 0 <= i < |items| :: ReadRight(b, items[i])
    ensures Contribution(b, items) == DueContribution(b, items)
  {
    if |items| > 0 {
      var init, item := items[..|items| - 1], Last(items);
      assert forall i | 0 <= i < |init| :: init[i] == items[i];
      RightTypesSuffice(b, init);
      if b in item.businesses {
        RightTypesMatch(item.lookups(b), b, item.header, item.txs);
      }
    }
  }

  lemma {:induction false} RightTypesMatch(l: Lookups, b: Business, header: Header, txs: seq<ChainTx>)
    requires TypesRight(l, txs)
    ensures Matched(l, b, header, txs) == Matched(Sure(l.book), b, header, txs)
  {
    if txs != [] {
      InitTypesRight(l, txs);
      RightTypesMatch(l, b, header, txs[..|txs| - 1]);
    }
  }

  lemma InitTypesRight(l: Lookups, txs: seq<ChainTx>)
    requires txs != []
    ensures TypesRight(l, txs) <==>
      TypesRight(l, txs[..|txs| - 1]) && TypeAt(l, |txs| - 1, Last(txs)) == DueType(l.book, Last(txs))
  {
    assert forall i | 0 <= i < |txs| - 1 :: txs[..|txs| - 1][i] == txs[i];
  }

  // How often a block lists a transaction, and how often with a given type.
  function Occurs(txs: seq<ChainTx>, c: ChainTx): nat {
    if txs == [] then 0 else Occurs(txs[..|txs| - 1], c) + if Last(txs) == c then 1 else 0
  }

  function Typed(l: Lookups, txs: seq<ChainTx>, c: ChainTx, k: TxType): nat {
    if txs == [] then 0 else
      Typed(l, txs[..|txs| - 1], c, k) + if Last(txs) == c && TypeAt(l, |txs| - 1, c) == k then 1 else 0
  }

  lemma {:induction false} CountMatched(l: Lookups, b: Business, header: Header, txs: seq<ChainTx>, c: ChainTx,
      k: TxType)
    requires !k.Unknown?
    ensures multiset(Matched(l, b, header, txs))[Labelled(b, header, c, k)] == Typed(l, txs, c, k)
  {
    if txs != [] {
      CountMatched(l, b, header, txs[..|txs| - 1], c, k);
    }
  }

  // A transaction has a type at all its places if and only if it has it as often as it is listed, and at none
  // if and only if never.
  lemma {:induction false} TypedExactly(l: Lookups, txs: seq<ChainTx>, c: ChainTx, k: TxType)
    ensures Typed(l, txs, c, k) <= Occurs(txs, c)
    ensures Typed(l, txs, c, k) == Occurs(txs, c) <==> forall i | 0 <= i < |txs| && txs[i] == c :: TypeAt(l, i, c) == k
    ensures Typed(l, txs, c, k) == 0 <==> forall i | 0 <= i < |txs| && txs[i] == c :: TypeAt(l, i, c) != k
  {
    if txs != [] {
      var init := txs[..|txs| - 1];
      assert forall i | 0 <= i < |init| :: init[i] == txs[i];
      TypedExactly(l, init, c, k);
    }
  }

  // A block's transactions are matched as registered if and only if every type is right, also when the block
  // lists equal transactions.
  lemma MatchedAsDue(l: Lookups, b: Business, header: Header, txs: seq<ChainTx>)
    ensures Matched(l, b, header, txs) == Matched(Sure(l.book), b, header, txs) <==> TypesRight(l, txs)
  {
    if TypesRight(l, txs) {
      RightTypesMatch(l, b, header, txs);
    }
    if Matched(l, b, header, txs) == Matched(Sure(l.book), b, header, txs) {
      forall i | 0 <= i < |txs| ensures TypeAt(l, i, txs[i]) == DueType(l.book, txs[i]) {
        EqualMatchesRight(l, b, header, txs, i);
      }
    }
  }

  lemma EqualMatchesRight(l: Lookups, b: Business, header: Header, txs: seq<ChainTx>, i: nat)
    requires i < |txs| && Matched(l, b, header, txs) == Matched(Sure(l.book), b, header, txs)
    ensures TypeAt(l, i, txs[i]) == DueType(l.book, txs[i])
  {
    var c := txs[i];
    var k := if DueType(l.book, c).Unknown? then TypeAt(l, i, c) else DueType(l.book, c);
    if !k.Unknown? {
      CountMatched(l, b, header, txs, c, k);
      CountMatched(Sure(l.book), b, header, txs, c, k);
      TypedExactly(l, txs, c, k);
      TypedExactly(Sure(l.book), txs, c, k);
      hide Matched, Typed, Occurs;
      assert forall j :: TypeAt(Sure(l.book), j, c) == DueType(l.book, c);
    }
  }

  // ---- Runs of blocks, part by part ----

  function Flat(parts: seq<seq<Transaction>>): seq<Transaction> {
    if parts == [] then [] else Flat(parts[..|parts| - 1]) + Last(parts)
  }

  // Each part holds transactions of its own height only.
  ghost predicate AtHeights(parts: seq<seq<Transaction>>, heights: seq<int>) {
    |parts| == |heights| && forall i, t | 0 <= i < |parts| && t in parts[i] :: t.blockNumber == heights[i]
  }

  // Lists whose ends, and only whose ends, are marked are equal exactly part by part.
  lemma ApartEqual(x: seq<Transaction>, y: seq<Transaction>, p: seq<Transaction>, q: seq<Transaction>,
                   marked: Transaction -> bool)
    requires forall t | t in x || t in y :: !marked(t)
    requires forall t | t in p || t in q :: marked(t)
    ensures x + p == y + q <==> x == y && p == q
  {
    if x + p == y + q {
      NoLonger(x, y, p, q, marked);
      NoLonger(y, x, q, p, marked);
      assert x == (x + p)[..|x|] && y == (y + q)[..|y|] && p == (x + p)[|x|..] && q == (y + q)[|y|..];
    }
  }

  lemma NoLonger(x: seq<Transaction>, y: seq<Transaction>, p: seq<Transaction>, q: seq<Transaction>,
                 marked: Transaction -> bool)
    requires x + p == y + q
    requires forall t | t in y :: !marked(t)
    requires forall t | t in p :: marked(t)
    ensures |y| <= |x|
  {
    assert forall j | 0 <= j < |p| :: p[j] in p;
    if y != [] {
      var k := |y| - 1;
      assert (y + q)[k] == y[k] && y[k] in y;
    }
  }

  lemma {:induction false} FlatHeights(parts: seq<seq<Transaction>>, heights: seq<int>)
    requires AtHeights(parts, heights)
    ensures forall t | t in Flat(parts) :: t.blockNumber in heights
  {
    if parts != [] {
      var init, low := parts[..|parts| - 1], heights[..|heights| - 1];
      FlatHeights(init, low);
      assert forall h | h in low :: h in heights;
      assert Last(heights) in heights;
    }
  }

  // Lists of parts at different heights have equal concatenations exactly part by part.
  lemma {:induction false} FlatEqual(x: seq<seq<Transaction>>, y: seq<seq<Transaction>>, heights: seq<int>)
    requires AtHeights(x, heights) && AtHeights(y, heights) && NoDuplicates(heights)
    ensures Flat(x) == Flat(y) <==> x == y
  {
    if x != [] {
      var n, init, low := |x| - 1, x[..|x| - 1], heights[..|heights| - 1];
      FlatEqual(init, y[..n], low);
      FlatHeights(init, low);
      FlatHeights(y[..n], low);
      assert forall i | 0 <= i < n :: low[i] != heights[n];
      ApartEqual(Flat(init), Flat(y[..n]), x[n], y[n], (t: Transaction) => t.blockNumber == heights[n]);
      assert x == init + [x[n]] && y == y[..n] + [y[n]];
    }
  }

  function HeadersOf(items: seq<Item>): seq<Header> {
    seq(|items|, i requires 0 <= i < |items| => items[i].header)
  }

  function NumbersOf(items: seq<Item>): seq<int> {
    seq(|items|, i requires 0 <= i < |items| => items[i].header.number)
  }

  function Shares(b: Business, items: seq<Item>): seq<seq<Transaction>> {
    seq(|items|, i requires 0 <= i < |items| => Share(b, items[i]))
  }

  lemma {:induction false} ContributionIsFlat(b: Business, items: seq<Item>)
    ensures Contribution(b, items) == Flat(Shares(b, items))
    ensures AtHeights(Shares(b, items), NumbersOf(items))
  {
    hide Share;
    forall i, t | 0 <= i < |items| && t in Shares(b, items)[i] ensures t.blockNumber == NumbersOf(items)[i] {
      ShareGenuine(b, items[i]);
    }
    if |items| > 0 {
      var init := items[..|items| - 1];
      assert Shares(b, items)[..|init|] == Shares(b, init);
      ContributionIsFlat(b, init);
    }
  }

  lemma ShareGenuine(b: Business, item: Item)
    ensures forall t | t in Share(b, item) :: t.blockNumber == item.header.number
  {
    MatchedIsGenuine(item.lookups(b), b, item.header, item.txs);
  }

  // Over a run of blocks at different heights, a business is sent what its registered addresses call for in
  // the blocks as read if and only if every transaction of every block gets the type its registered addresses
  // give it.
  lemma SentAsDueExactly(b: Business, items: seq<Item>)
    requires NoDuplicates(NumbersOf(items))
    ensures Contribution(b, items) == DueContribution(b, items) <==>
      forall i | 0 <= i < |items| :: ReadRight(b, items[i])
  {
    var shares, dues := Shares(b, items), seq(|items|, i requires 0 <= i < |items| => Due(b, items[i]));
    ContributionIsFlat(b, items);
    DueIsFlat(b, items, dues);
    FlatEqual(shares, dues, NumbersOf(items));
    hide Contribution, DueContribution, Flat, Share, Due, ReadRight, AtHeights;
    forall i | 0 <= i < |items| ensures shares[i] == dues[i] <==> ReadRight(b, items[i]) {
      ShareAsDue(b, items[i]);
    }
  }

  lemma {:induction false} DueIsFlat(b: Business, items: seq<Item>, dues: seq<seq<Transaction>>)
    requires |dues| == |items| && forall i | 0 <= i < |items| :: dues[i] == Due(b, items[i])
    ensures DueContribution(b, items) == Flat(dues) && AtHeights(dues, NumbersOf(items))
  {
    forall i, t | 0 <= i < |items| && t in dues[i] ensures t.blockNumber == NumbersOf(items)[i] {
      MatchedIsGenuine(Sure(items[i].lookups(b).book), b, items[i].header, items[i].txs);
    }
    hide Due;
    if |items| > 0 {
      DueIsFlat(b, items[..|items| - 1], dues[..|items| - 1]);
    }
  }

  lemma ShareAsDue(b: Business, item: Item)
    ensures Share(b, item) == Due(b, item) <==> ReadRight(b, item)
  {
    if b in item.businesses {
      MatchedAsDue(item.lookups(b), b, item.header, item.txs);
    }
  }

  // ---- What the chain's blocks call for ----

  // The chain's transactions and the registered addresses, by height.
  type TxLists = int -> seq<ChainTx>
  type Books = int -> Book

  function OfBlock(b: Business, header: Header, txsAt: TxLists, bookAt: Books): seq<Transaction> {
    Matched(Sure(bookAt(header.number)), b, header, txsAt(header.number))
  }

  // What a stretch of blocks calls for, by the chain's transactions and the registered addresses.
  function OfChain(b: Business, headers: seq<Header>, txsAt: TxLists, bookAt: Books): seq<Transaction> {
    if headers == [] then [] else
      OfChain(b, headers[..|headers| - 1], txsAt, bookAt) + OfBlock(b, Last(headers), txsAt, bookAt)
  }

  // The node reported the block's transactions, or none at all.
  ghost predicate OfNode(b: Business, item: Item, txsAt: TxLists, bookAt: Books) {
    && (item.txs == txsAt(item.header.number) || item.txs == [])
    && item.lookups(b).book == bookAt(item.header.number)
  }

  // The block was classified with its transactions and every type was right, or it holds no transaction that
  // concerns the business.
  ghost predicate ReadWhole(b: Business, item: Item, txsAt: TxLists, bookAt: Books) {
    var n := item.header.number;
    if b in item.businesses && item.txs == txsAt(n) then TypesRight(item.lookups(b), item.txs)
    else forall i | 0 <= i < |txsAt(n)| :: DueType(bookAt(n), txsAt(n)[i]).Unknown?
  }

  lemma {:induction false} NothingMatched(l: Lookups, b: Business, header: Header, txs: seq<ChainTx>)
    ensures Matched(l, b, header, txs) == [] <==> forall i | 0 <= i < |txs| :: TypeAt(l, i, txs[i]).Unknown?
  {
    if txs != [] {
      var init := txs[..|txs| - 1];
      assert forall i | 0 <= i < |init| :: init[i] == txs[i];
      NothingMatched(l, b, header, init);
    }
  }

  lemma ShareOfChainExactly(b: Business, item: Item, txsAt: TxLists, bookAt: Books)
    requires OfNode(b, item, txsAt, bookAt)
    ensures Share(b, item) == OfBlock(b, item.header, txsAt, bookAt) <==> ReadWhole(b, item, txsAt, bookAt)
  {
    var n := item.header.number;
    if b in item.businesses && item.txs == txsAt(n) {
      MatchedAsDue(item.lookups(b), b, item.header, item.txs);
    } else {
      NothingMatched(Sure(bookAt(n)), b, item.header, txsAt(n));
      assert Share(b, item) == [];
      hide Matched;
    }
  }

  lemma {:induction false} ChainIsFlat(b: Business, items: seq<Item>, txsAt: TxLists, bookAt: Books,
                                       blocks: seq<seq<Transaction>>)
    requires |blocks| == |items|
    requires forall i | 0 <= i < |items| :: blocks[i] == OfBlock(b, items[i].header, txsAt, bookAt)
    ensures OfChain(b, HeadersOf(items), txsAt, bookAt) == Flat(blocks) && AtHeights(blocks, NumbersOf(items))
  {
    forall i, t | 0 <= i < |items| && t in blocks[i] ensures t.blockNumber == NumbersOf(items)[i] {
      var n := items[i].header.number;
      MatchedIsGenuine(Sure(bookAt(n)), b, items[i].header, txsAt(n));
    }
    hide OfBlock;
    if |items| > 0 {
      var init := items[..|items| - 1];
      assert HeadersOf(items)[..|init|] == HeadersOf(init);
      ChainIsFlat(b, init, txsAt, bookAt, blocks[..|init|]);
    }
  }

  // Over a run of blocks at different heights, each read with the chain's transactions or as empty, a business
  // is sent what the chain calls for if and only if each block was classified with its transactions and right
  // types, or calls for nothing.
  lemma SentOfChainExactly(b: Business, items: seq<Item>, txsAt: TxLists, bookAt: Books)
    requires NoDuplicates(NumbersOf(items)) && forall i | 0 <= i < |items| :: OfNode(b, items[i], txsAt, bookAt)
    ensures Contribution(b, items) == OfChain(b, HeadersOf(items), txsAt, bookAt) <==>
      forall i | 0 <= i < |items| :: ReadWhole(b, items[i], txsAt, bookAt)
  {
    var shares := Shares(b, items);
    var blocks := seq(|items|, i requires 0 <= i < |items| => OfBlock(b, items[i].header, txsAt, bookAt));
    ContributionIsFlat(b, items);
    ChainIsFlat(b, items, txsAt, bookAt, blocks);
    FlatEqual(shares, blocks, NumbersOf(items));
    hide Contribution, OfChain, Flat, Share, OfBlock, OfNode, ReadWhole, AtHeights;
    forall i | 0 <= i < |items| ensures shares[i] == blocks[i] <==> ReadWhole(b, items[i], txsAt, bookAt) {
      ShareOfChainExactly(b, items[i], txsAt, bookAt);
    }
  }

  // What the emitted map says of one business.
  function Stream(m: map<Business, Batch>, b: Business): seq<Transaction> {
    if b in m then m[b].transactions else []
  }

  lemma StreamOfClassified(items: seq<Item>, b: Business)
    ensures Stream(Classified(items), b) == Contribution(b, items)
  {
    ContributorsAreListed(b, items);
  }

  lemma {:induction false} ContributionConcat(b: Business, items: seq<Item>, more: seq<Item>)
    ensures Contribution(b, items + more) == Contribution(b, items) + Contribution(b, more)
    decreases |more|
  {
    hide Share;
    var all := items + more;
    if more == [] {
      assert all == items;
    } else {
      var init := more[..|more| - 1];
      assert all[..|all| - 1] == items + init && Last(all) == Last(more);
      ContributionConcat(b, items, init);
      var share := Share(b, Last(more));
      assert Contribution(b, items) + (Contribution(b, init) + share)
        == (Contribution(b, items) + Contribution(b, init)) + share;
    }
  }

  // The batch height is that of a contributing block after which no block contributes.
  lemma {:induction false} HeightOfLastContributor(b: Business, items: seq<Item>) returns (i: nat)
    requires Contribution(b, items) != []
    ensures i < |items| && Share(b, items[i]) != []
        && LastHeight(b, items) == BigInt.Uint64(items[i].header.number)
    ensures forall j | i < j < |items| :: Share(b, items[j]) == []
  {
    hide Share;
    if Share(b, Last(items)) != [] {
      i := |items| - 1;
    } else {
      i := HeightOfLastContributor(b, items[..|items| - 1]);
      assert forall j | 0 <= j < |items| - 1 :: items[..|items| - 1][j] == items[j];
    }
  }
}
