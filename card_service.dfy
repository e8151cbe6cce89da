/**
 * The card service: list the caller's cards, the cards of one owned account,
 * one owned card; issue a card (ACTIVE, with a random 16-digit number and a
 * random 3-digit CVV); change a card's status; delete a card. A card belongs
 * to the caller when its account does, and every lookup filters by that, so
 * a missing card and another user's card give the same NotFound.
 */
module CardService {
  import opened Common
  import opened Domain
  import opened Seqs
  import opened Database

  const CardNotFoundMessage := "Card not found"
  const CardDeletedMessage := "Card deleted successfully"

  /** A card with the `account: { accountNumber, accountType }` it is listed with. */
  datatype CardWithAccount = CardWithAccount(card: Card, accountNumber: string, accountType: AccountType)

  /** A card with the `account: { accountNumber, accountType, balance }` getCard includes. */
  datatype CardDetail = CardDetail(card: Card, accountNumber: string, accountType: AccountType, balance: Money)

  /** Join each card with its account; every card is owned, so its account exists. */
  function WithAccounts(cs: seq<Card>, accounts: seq<Account>, userId: Id): (r: seq<CardWithAccount>)
    requires forall c :: c in cs ==> CardOwnedBy(accounts, c, userId)
    ensures |r| == |cs|
    ensures forall k :: 0 <= k < |r| ==> r[k].card == cs[k]
    ensures forall k :: 0 <= k < |r| ==>
      exists a ::
        && a in accounts && a.id == cs[k].accountId && a.userId == userId
        && r[k].accountNumber == a.accountNumber && r[k].accountType == a.accountType
  {
    if cs == [] then []
    else
      assert cs[0] in cs && CardOwnedBy(accounts, cs[0], userId);
      var a := accounts[OwnedAccountIndex(accounts, cs[0].accountId, userId).value];
      [CardWithAccount(cs[0], a.accountNumber, a.accountType)] + WithAccounts(cs[1..], accounts, userId)
  }

  function OwnedCards(cards: seq<Card>, accounts: seq<Account>, userId: Id): (r: seq<Card>)
    ensures forall c :: c in r <==> c in cards && CardOwnedBy(accounts, c, userId)
  {
    Filter(cards, (c: Card) => CardOwnedBy(accounts, c, userId))
  }

  /** getUserCards: exactly the cards whose account is the caller's, newest first. */
  function GetUserCards(cards: seq<Card>, accounts: seq<Account>, userId: Id): (r: seq<CardWithAccount>)
    ensures |r| == |OwnedCards(cards, accounts, userId)|
    ensures forall k :: 0 <= k < |r| ==> r[k].card == OwnedCards(cards, accounts, userId)[|r| - 1 - k]
    ensures forall k :: 0 <= k < |r| ==>
      exists a ::
        && a in accounts && a.id == r[k].card.accountId && a.userId == userId
        && r[k].accountNumber == a.accountNumber && r[k].accountType == a.accountType
  {
    var owned := Reverse(OwnedCards(cards, accounts, userId));
    ReverseSameElements(OwnedCards(cards, accounts, userId));
    WithAccounts(owned, accounts, userId)
  }

  /** A card is listed by getUserCards exactly when it is stored and its account is the caller's. */
  lemma UserCardsExactly(cards: seq<Card>, accounts: seq<Account>, userId: Id, c: Card)
    ensures (exists k :: 0 <= k < |GetUserCards(cards, accounts, userId)|
                         && GetUserCards(cards, accounts, userId)[k].card == c)
        <==> c in cards && CardOwnedBy(accounts, c, userId)
  {
    var r := GetUserCards(cards, accounts, userId);
    var owned := OwnedCards(cards, accounts, userId);
    if c in cards && CardOwnedBy(accounts, c, userId) {
      var j :| 0 <= j < |owned| && owned[j] == c;
      assert r[|r| - 1 - j].card == c;
    }
  }

  /** The cards of one account, in the order they were issued. */
  function AccountCards(cards: seq<Card>, accountId: Id): (r: seq<Card>)
    ensures forall c :: c in r <==> c in cards && c.accountId == accountId
  {
    Filter(cards, (c: Card) => c.accountId == accountId)
  }

  /** getAccountCards: NotFound unless the account is the caller's; then its cards, newest first. */
  function GetAccountCards(cards: seq<Card>, accounts: seq<Account>, accountId: Id, userId: Id)
    : (r: Result<seq<Card>>)
    ensures !OwnsAccount(accounts, accountId, userId) <==> r == Err(NotFound(AccountNotFoundMessage))
    ensures r.Ok? ==> |r.value| == |AccountCards(cards, accountId)|
    ensures r.Ok? ==> forall k :: 0 <= k < |r.value| ==>
      r.value[k] == AccountCards(cards, accountId)[|r.value| - 1 - k]
    ensures r.Ok? ==> forall c :: c in r.value <==> c in cards && c.accountId == accountId
  {
    if !OwnsAccount(accounts, accountId, userId) then Err(NotFound(AccountNotFoundMessage))
    else
      var f := AccountCards(cards, accountId);
      ReverseSameElements(f);
      Ok(Reverse(f))
  }

  /** getCard: the caller's card with that id and its account's number, type and balance, or NotFound. */
  function GetCard(cards: seq<Card>, accounts: seq<Account>, cardId: Id, userId: Id): (r: Result<CardDetail>)
    ensures r.Err? <==> r == Err(NotFound(CardNotFoundMessage))
    ensures r.Ok? <==> exists c :: c in cards && c.id == cardId && CardOwnedBy(accounts, c, userId)
    ensures r.Ok? ==>
      && r.value.card in cards && r.value.card.id == cardId
      && exists a ::
           && a in accounts && a.id == r.value.card.accountId && a.userId == userId
           && r.value.accountNumber == a.accountNumber && r.value.accountType == a.accountType
           && r.value.balance == a.balance
  {
    match OwnedCardIndex(cards, accounts, cardId, userId)
    case None => Err(NotFound(CardNotFoundMessage))
    case Some(i) =>
      var c := cards[i];
      var a := accounts[OwnedAccountIndex(accounts, c.accountId, userId).value];
      Ok(CardDetail(c, a.accountNumber, a.accountType, a.balance))
  }

  /** The shape of a generated card number: 16 decimal digits, the first a 4 (Visa) or a 5 (Mastercard). */
  predicate IsCardNumber(s: string)
  {
    |s| == 16 && AllDigits(s) && (s[0] == '4' || s[0] == '5')
  }

  /** generateCardNumber: a random leading 4 or 5, then fifteen random decimal digits. */
  method GenerateCardNumber() returns (s: string)
    ensures IsCardNumber(s)
  {
    var heads: bool :| true;
    s := if heads then "4" else "5";
    for i := 0 to 15
      invariant |s| == i + 1
      invariant AllDigits(s) && (s[0] == '4' || s[0] == '5')
    {
      var d: int :| 0 <= d < 10;
      s := s + [DigitChar(d)];
    }
  }

  /** The decimal notation of `n`, as Number.prototype.toString writes it. */
  function DecimalString(n: nat): (r: string)
    ensures |r| >= 1 && AllDigits(r)
  {
    if n < 10 then [DigitChar(n)] else DecimalString(n / 10) + [DigitChar(n % 10)]
  }

  /** The number a string of decimal digits denotes. */
  function DecimalValue(s: string): nat
    requires AllDigits(s)
  {
    if s == [] then 0 else 10 * DecimalValue(s[..|s| - 1]) + (s[|s| - 1] as int - '0' as int)
  }

  /** Reading back the decimal notation gives the number, so distinct CVVs print differently. */
  lemma {:induction false} DecimalRoundTrip(n: nat)
    ensures DecimalValue(DecimalString(n)) == n
  {
    var s := DecimalString(n);
    if n >= 10 {
      DecimalRoundTrip(n / 10);
      assert s[..|s| - 1] == DecimalString(n / 10);
    }
  }

  /** A number in [100, 999] is written with exactly three digits, the first not zero. */
  lemma ThreeDigits(n: nat)
    requires 100 <= n <= 999
    ensures |DecimalString(n)| == 3 && DecimalString(n)[0] != '0'
  {
    assert DecimalString(n) == DecimalString(n / 100) + [DigitChar(n / 10 % 10)] + [DigitChar(n % 10)];
  }

  /** generateCVV: the decimal string of a random integer in [100, 999]. */
  method GenerateCVV() returns (cvv: string)
    ensures |cvv| == 3 && AllDigits(cvv) && 100 <= DecimalValue(cvv) <= 999
  {
    var n: int :| 100 <= n <= 999;
    cvv := DecimalString(n);
    ThreeDigits(n);
    DecimalRoundTrip(n);
  }

  /** What createCard receives besides the generated number and CVV. */
  datatype CreateCardInput = CreateCardInput(
    accountId: Id, cardType: CardType, cardholderName: string, expiryDate: Timestamp,
    creditLimit: Option<Money>, userId: Id)

  /**
   * createCard: NotFound, with nothing created, unless the account is the
   * caller's; otherwise one ACTIVE card with the given details and freshly
   * generated number and CVV is appended to the table.
   */
  method CreateCard(db: Db, input: CreateCardInput) returns (r: Result<CardWithAccount>)
    requires db.Wf()
    modifies db`cards, db`nextId
    ensures db.Wf()
    ensures old(db.Valid()) ==> db.Valid()
    ensures !OwnsAccount(old(db.accounts), input.accountId, input.userId) ==>
      r == Err(NotFound(AccountNotFoundMessage)) && unchanged(db)
    ensures r.Ok? <==> OwnsAccount(old(db.accounts), input.accountId, input.userId)
    ensures r.Ok? ==>
      var c := r.value.card;
      var a := db.accounts[OwnedAccountIndex(db.accounts, input.accountId, input.userId).value];
      && db.cards == old(db.cards) + [c]
      && c.id == old(db.nextId)
      && c.status == ACTIVE && c.accountId == input.accountId && c.cardType == input.cardType
      && c.cardholderName == input.cardholderName && c.expiryDate == input.expiryDate
      && c.creditLimit == input.creditLimit
      && IsCardNumber(c.cardNumber) && |c.cvv| == 3 && AllDigits(c.cvv) && 100 <= DecimalValue(c.cvv) <= 999
      && r.value.accountNumber == a.accountNumber && r.value.accountType == a.accountType
  {
    var found := OwnedAccountIndex(db.accounts, input.accountId, input.userId);
    if found.None? {
      return Err(NotFound(AccountNotFoundMessage));
    }
    var cardNumber := GenerateCardNumber();
    var cvv := GenerateCVV();
    var card := Card(db.nextId, input.accountId, cardNumber, input.cardType, input.cardholderName,
                     input.expiryDate, cvv, input.creditLimit, ACTIVE);
    db.cards := db.cards + [card];
    db.nextId := db.nextId + 1;
    var a := db.accounts[found.value];
    r := Ok(CardWithAccount(card, a.accountNumber, a.accountType));
  }

  /**
   * updateCardStatus: NotFound, with nothing changed, unless the card is the
   * caller's; otherwise that card's status, and nothing else, is replaced.
   */
  method UpdateCardStatus(db: Db, cardId: Id, status: CardStatus, userId: Id) returns (r: Result<Card>)
    requires db.Wf()
    modifies db`cards
    ensures db.Wf()
    ensures old(db.Valid()) ==> db.Valid()
    ensures OwnedCardIndex(old(db.cards), db.accounts, cardId, userId).None? ==>
      r == Err(NotFound(CardNotFoundMessage)) && unchanged(db)
    ensures r.Ok? <==> OwnedCardIndex(old(db.cards), db.accounts, cardId, userId).Some?
    ensures r.Ok? ==>
      var i := OwnedCardIndex(old(db.cards), db.accounts, cardId, userId).value;
      && r.value == old(db.cards[i]).(status := status)
      && db.cards == old(db.cards)[i := r.value]
  {
    var found := OwnedCardIndex(db.cards, db.accounts, cardId, userId);
    if found.None? {
      return Err(NotFound(CardNotFoundMessage));
    }
    var updated := db.cards[found.value].(status := status);
    db.cards := db.cards[found.value := updated];
    r := Ok(updated);
  }

  /** Removing the card at i keeps ids unique and drops exactly the cards with its id. */
  lemma RemoveCard(cards: seq<Card>, i: nat)
    requires CardIdsUnique(cards) && i < |cards|
    ensures var rest := cards[..i] + cards[i + 1..];
      && CardIdsUnique(rest)
      && (forall c :: c in rest ==> c in cards)
      && (forall c :: c in rest <==> c in cards && c.id != cards[i].id)
  {
    var rest := cards[..i] + cards[i + 1..];
    assert forall j :: 0 <= j < |rest| ==> rest[j] == cards[if j < i then j else j + 1];
    forall c | c in cards && c.id != cards[i].id ensures c in rest {
      var j :| 0 <= j < |cards| && cards[j] == c;
      assert rest[if j < i then j else j - 1] == c;
    }
  }

  /**
   * deleteCard: NotFound, with the table unchanged, unless the card is the
   * caller's; otherwise exactly that card is removed and every other card
   * stays, in order.
   */
  method DeleteCard(db: Db, cardId: Id, userId: Id) returns (r: Result<string>)
    requires db.Wf()
    modifies db`cards
    ensures db.Wf()
    ensures old(db.Valid()) ==> db.Valid()
    ensures OwnedCardIndex(old(db.cards), db.accounts, cardId, userId).None? ==>
      r == Err(NotFound(CardNotFoundMessage)) && unchanged(db)
    ensures r.Ok? <==> OwnedCardIndex(old(db.cards), db.accounts, cardId, userId).Some?
    ensures r.Ok? ==>
      var i := OwnedCardIndex(old(db.cards), db.accounts, cardId, userId).value;
      && r.value == CardDeletedMessage
      && db.cards == old(db.cards[..i] + db.cards[i + 1..])
      && forall c :: c in db.cards <==> c in old(db.cards) && c.id != cardId
  {
    var found := OwnedCardIndex(db.cards, db.accounts, cardId, userId);
    if found.None? {
      return Err(NotFound(CardNotFoundMessage));
    }
    var i := found.value;
    RemoveCard(db.cards, i);
    db.cards := db.cards[..i] + db.cards[i + 1..];
    r := Ok(CardDeletedMessage);
  }
}
