/**
 * The client-side rules of the NFC manager page (src/app/page.tsx): the search filter over the
 * card list, the per-user card filter, the input guards that decide whether a request is sent,
 * and the state resets of logout and of a simulated scan.
 *
 * The component's state hooks are the fields of `Manager`; each handler is a method. A handler
 * that sends a request returns the request it would send (or `None` when a guard stops it), and
 * what happens when the response arrives is a separate method. `Math.random()` in a scanned
 * uid is the parameter `suffix`.
 */
module NfcManager {
  import opened Common
  import opened Tables

  /** A `cards` row as the page receives it. */
  datatype Card = Card(id: int, uid: string, link: string, userId: string)

  datatype ScannedCard = ScannedCard(uid: string, link: string, locked: bool)

  /** The body `handleAuth` posts: to `/api/login`, or to `/api/users` when registering. */
  datatype AuthRequest =
    | LoginRequest(email: string, password: string)
    | RegisterRequest(name: string, email: string, password: string)

  /** The body `writeCard` posts to `/api/cards`. */
  datatype WriteRequest = WriteRequest(uid: string, link: string, userId: string)

  const HomeTab: string := "home"
  const ReadOperation: string := "read"
  const ScannedUidPrefix: string := "NFC-"
  const ReadLink: string := "https://example.com"

  /** The search term occurs in the card's uid or link, ignoring case. */
  predicate CardMatches(c: Card, term: string) {
    Contains(Lower(c.uid), Lower(term)) || Contains(Lower(c.link), Lower(term))
  }

  /** `filteredCards`: the cards whose uid or link contains the term, in list order. */
  function FilteredCards(cards: seq<Card>, term: string): (r: seq<Card>)
    ensures IsSubsequence(r, cards)
    ensures forall c :: c in r <==> c in cards && CardMatches(c, term)
    ensures term == "" ==> r == cards
    ensures forall c :: multiset(r)[c] == if CardMatches(c, term) then multiset(cards)[c] else 0
  {
    WhereCounts(cards, (c: Card) => CardMatches(c, term));
    assert term == "" ==> forall c :: c in cards ==> CardMatches(c, term) by {
      if term == "" {
        forall c | c in cards ensures CardMatches(c, term) {
          ContainsEmpty(Lower(c.uid));
        }
      }
    }
    Where(cards, (c: Card) => CardMatches(c, term))
  }

  /** Searching is case-blind: a term and its lower-cased form select the same cards. */
  lemma SearchIgnoresCase(cards: seq<Card>, term: string)
    ensures FilteredCards(cards, term) == FilteredCards(cards, Lower(term))
  {
    LowerIdempotent(term);
    WhereCongruent(cards, (c: Card) => CardMatches(c, term), (c: Card) => CardMatches(c, Lower(term)));
  }

  /** The user filter of `fetchCards`: the cards whose `user_id` is the user's, in list order. */
  function UserCards(cards: seq<Card>, userId: string): (r: seq<Card>)
    ensures IsSubsequence(r, cards)
    ensures forall c :: c in r <==> c in cards && c.userId == userId
    ensures forall c :: multiset(r)[c] == if c.userId == userId then multiset(cards)[c] else 0
  {
    WhereCounts(cards, (c: Card) => c.userId == userId);
    Where(cards, (c: Card) => c.userId == userId)
  }

  /** The page's state. */
  class Manager {
    var currentUser: Option<Profile>
    var isLoginMode: bool
    var loginEmail: string
    var loginName: string
    var loginPassword: string
    var cards: seq<Card>
    var activeTab: string
    var activeOperation: Option<string>
    var isScanning: bool
    var scannedCard: Option<ScannedCard>
    var newLink: string
    var searchTerm: string

    /** A scanned card is shown only once the scan is over. */
    ghost predicate Valid()
      reads this
    {
      scannedCard.Some? ==> !isScanning
    }

    /** The initial state of every hook. */
    constructor ()
      ensures Valid()
      ensures currentUser.None? && isLoginMode && loginEmail == "" && loginName == "" && loginPassword == ""
      ensures cards == [] && activeTab == HomeTab && activeOperation.None? && !isScanning
      ensures scannedCard.None? && newLink == "" && searchTerm == ""
    {
      currentUser, isLoginMode := None, true;
      loginEmail, loginName, loginPassword := "", "", "";
      cards, activeTab, activeOperation := [], HomeTab, None;
      isScanning, scannedCard, newLink, searchTerm := false, None, "", "";
    }

    /**
     * `fetchCards()`: nothing without a user; `fetched` is the card list `/api/cards` returned,
     * `None` when the request failed. Only the user's own cards are kept.
     */
    method FetchCards(fetched: Option<seq<Card>>)
      requires Valid()
      modifies this`cards
      ensures Valid()
      ensures currentUser.None? || fetched.None? ==> cards == old(cards)
      ensures currentUser.Some? && fetched.Some? ==> cards == UserCards(fetched.value, currentUser.value.id)
      ensures currentUser.Some? && fetched.Some? ==> forall c :: c in cards ==> c.userId == currentUser.value.id
    {
      if currentUser.None? {
        return;
      }
      if fetched.Some? {
        cards := UserCards(fetched.value, currentUser.value.id);
      }
    }

    /**
     * `handleAuth()` up to the request: none when the email or password is empty, or when
     * registering without a name; otherwise the login or registration body.
     */
    method HandleAuth() returns (req: Option<AuthRequest>)
      ensures req.None? <==> loginEmail == "" || loginPassword == "" || (!isLoginMode && loginName == "")
      ensures req.Some? && isLoginMode ==> req.value == LoginRequest(loginEmail, loginPassword)
      ensures req.Some? && !isLoginMode ==> req.value == RegisterRequest(loginName, loginEmail, loginPassword)
    {
      if loginEmail == "" || loginPassword == "" {
        return None;
      }
      if isLoginMode {
        return Some(LoginRequest(loginEmail, loginPassword));
      }
      if loginName == "" {
        return None;
      }
      req := Some(RegisterRequest(loginName, loginEmail, loginPassword));
    }

    /** A successful login or registration: the user is signed in and the form fields are cleared. */
    method AuthSucceeded(user: Profile)
      requires Valid()
      modifies this`currentUser, this`loginEmail, this`loginName, this`loginPassword
      ensures Valid()
      ensures currentUser == Some(user) && loginEmail == "" && loginPassword == ""
      ensures loginName == if isLoginMode then old(loginName) else ""
    {
      currentUser := Some(user);
      loginEmail := "";
      if !isLoginMode {
        loginName := "";
      }
      loginPassword := "";
    }

    /** `handleLogout()`: no user, no cards, back to the home tab. */
    method HandleLogout()
      requires Valid()
      modifies this`currentUser, this`cards, this`activeTab
      ensures Valid()
      ensures currentUser.None? && cards == [] && activeTab == HomeTab
    {
      currentUser := None;
      cards := [];
      activeTab := HomeTab;
    }

    /** `simulateNFCScan(operation)`: nothing without a user; otherwise a scan starts afresh. */
    method SimulateNfcScan(operation: string)
      requires Valid()
      modifies this`activeOperation, this`isScanning, this`scannedCard, this`newLink
      ensures Valid()
      ensures old(currentUser).None? ==>
        activeOperation == old(activeOperation) && isScanning == old(isScanning)
        && scannedCard == old(scannedCard) && newLink == old(newLink)
      ensures old(currentUser).Some? ==>
        activeOperation == Some(operation) && isScanning && scannedCard.None? && newLink == ""
    {
      if currentUser.None? {
        return;
      }
      activeOperation := Some(operation);
      isScanning := true;
      scannedCard := None;
      newLink := "";
    }

    /**
     * The timer of `simulateNFCScan` firing: a card with the uid "NFC-" + `suffix`, linked to the
     * example site only for a read, and the scan is over.
     */
    method FinishScan(operation: string, suffix: string)
      requires Valid()
      modifies this`scannedCard, this`isScanning
      ensures Valid()
      ensures scannedCard.Some? && !isScanning
      ensures scannedCard.value == ScannedCard(ScannedUidPrefix + suffix,
                                               if operation == ReadOperation then ReadLink else "", false)
      ensures StartsAt(scannedCard.value.uid, 0, ScannedUidPrefix)
    {
      var uid := ScannedUidPrefix + suffix;
      assert uid[0..|ScannedUidPrefix|] == ScannedUidPrefix;
      scannedCard := Some(ScannedCard(uid, if operation == ReadOperation then ReadLink else "", false));
      isScanning := false;
    }

    /** `writeCard()` up to the request: none without a link, a scanned card or a user. */
    method WriteCard() returns (req: Option<WriteRequest>)
      ensures req.None? <==> newLink == "" || scannedCard.None? || currentUser.None?
      ensures req.Some? ==> req.value == WriteRequest(scannedCard.value.uid, newLink, currentUser.value.id)
    {
      if newLink == "" {
        return None;
      }
      if scannedCard.None? || currentUser.None? {
        return None;
      }
      req := Some(WriteRequest(scannedCard.value.uid, newLink, currentUser.value.id));
    }

    /** A card written successfully: the operation is over and the link field cleared. */
    method WriteSucceeded()
      requires Valid()
      modifies this`activeOperation, this`scannedCard, this`newLink
      ensures Valid()
      ensures activeOperation.None? && scannedCard.None? && newLink == ""
    {
      activeOperation := None;
      scannedCard := None;
      newLink := "";
    }

    /** `resetCard()` and `lockCard()`: the operation is over and the scanned card dismissed. */
    method DismissCard()
      requires Valid()
      modifies this`activeOperation, this`scannedCard
      ensures Valid()
      ensures activeOperation.None? && scannedCard.None?
    {
      activeOperation := None;
      scannedCard := None;
    }
  }
}
