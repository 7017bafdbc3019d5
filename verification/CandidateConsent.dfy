/**
  Consent, double opt-in and the candidate messages planned under them
  (backend/app/candidate_messages.py, the channel endpoints in
  backend/app/routers/candidate_messages.py, the cancellations in
  backend/app/notification_service.py, the send-time checks in backend/app/worker.py). Card addresses
  are in normalised form. Each event is one transaction under the candidate's lock.
 */
module CandidateConsent {
  import opened Wrappers

  datatype Channel = Email | Telegram

  datatype Source = HrRecorded | TelegramStart | EmailConfirm

  datatype Card = Card(deleted: bool, email: Option<string>)

  /** A CandidateChannelConsent row; an email consent is pinned to the address it covers. */
  datatype Consent = Consent(granted: bool, source: Source, address: Option<string>)

  /** A CandidateTelegramLink row; `failing` is a temporary provider error within the last hour. */
  datatype Link = Link(chat: Option<int>, revoked: bool, failing: bool)

  datatype TokenState = Alive | Confirmed | Superseded

  /** A CandidateEmailConfirmToken row, named by its position. */
  datatype Token = Token(candidate: int, address: string, expires: int, state: TokenState)

  datatype Kind = Regular(key: string) | Letter(token: nat)

  datatype Status = Queued | Sending | Sent | Failed | Skipped | Cancelled

  datatype Message = Message(candidate: int, channel: Channel, kind: Kind, status: Status)

  datatype Target = Mailbox(address: string) | Chat(id: int)

  /** One provider call: which row left, and where to. */
  datatype Delivery = Delivery(message: nat, to: Target)

  datatype Config = Config(email: bool, telegram: bool, tokenLife: nat)

  datatype System = System(
    cards: map<int, Card>,
    consents: map<(int, Channel), Consent>,
    links: map<int, Link>,
    tokens: seq<Token>,
    outbox: seq<Message>,
    log: seq<Delivery>)

  datatype Error = EmailGrantNeedsConfirmation

  // ---------------------------------------------------------------- channel states

  datatype ChannelState = NotConnected | Pending | Allowed | Forbidden | TemporarilyUnavailable

  function ConsentOf(consents: map<(int, Channel), Consent>, c: int, channel: Channel): Option<Consent> {
    if (c, channel) in consents then Some(consents[(c, channel)]) else None
  }

  predicate EmailConsentIsCurrent(consent: Option<Consent>, card: Card) {
    && consent.Some?
    && consent.value.granted
    && consent.value.source == EmailConfirm
    && card.email.Some?
    && consent.value.address == card.email
  }

  /** `candidate_channel_state`; `invited` says whether an unexpired invitation exists. */
  function StateOf(card: Card, consent: Option<Consent>, link: Option<Link>, channel: Channel, cfg: Config, invited: bool)
    : ChannelState
  {
    match channel
    case Telegram =>
      if !cfg.telegram then NotConnected
      else if link.Some? && link.value.chat.Some? then
        if link.value.revoked then Forbidden
        else if consent.None? then Pending
        else if !consent.value.granted then Forbidden
        else if link.value.failing then TemporarilyUnavailable
        else Allowed
      else if consent.Some? && !consent.value.granted then Forbidden
      else if invited then Pending
      else NotConnected
    case Email =>
      if !cfg.email then NotConnected
      else if card.email.None? then NotConnected
      else if consent.Some? && !consent.value.granted then Forbidden
      else if !EmailConsentIsCurrent(consent, card) then Pending
      else Allowed
  }

  predicate IsAllowed(s: System, cfg: Config, c: int, channel: Channel)
    requires c in s.cards
  {
    StateOf(s.cards[c], ConsentOf(s.consents, c, channel), if c in s.links then Some(s.links[c]) else None, channel, cfg, false)
      == Allowed
  }

  // ---------------------------------------------------------------- consent bookkeeping

  function CancelChannel(outbox: seq<Message>, c: int, channel: Channel): seq<Message> {
    seq(|outbox|, i requires 0 <= i < |outbox| =>
      var m := outbox[i];
      if m.candidate == c && m.channel == channel && m.status == Queued then m.(status := Cancelled) else m)
  }

  /** `record_candidate_consent`. */
  function Record(s: System, c: int, channel: Channel, granted: bool, source: Source): Result<System, Error>
    requires c in s.cards
  {
    if channel == Email && granted && source != EmailConfirm then Failure(EmailGrantNeedsConfirmation)
    else
      var consent := Consent(granted, source, if channel == Email then s.cards[c].email else None);
      Success(s.(consents := s.consents[(c, channel) := consent],
                 outbox := if granted then s.outbox else CancelChannel(s.outbox, c, channel)))
  }

  // ---------------------------------------------------------------- planning

  predicate Taken(outbox: seq<Message>, key: string, channel: Channel) {
    exists i :: 0 <= i < |outbox| && outbox[i].kind == Regular(key) && outbox[i].channel == channel
  }

  function QueueOne(outbox: seq<Message>, c: int, channel: Channel, key: string): seq<Message> {
    if Taken(outbox, key, channel) then outbox else outbox + [Message(c, channel, Regular(key), Queued)]
  }

  /** One channel of `queue_candidate_message_all_channels`. */
  function QueueIfAllowed(s: System, cfg: Config, c: int, channel: Channel, key: string, only: Option<Channel>): System
    requires c in s.cards
  {
    if IsAllowed(s, cfg, c, channel) && (only.None? || only.value == channel)
    then s.(outbox := QueueOne(s.outbox, c, channel, key))
    else s
  }

  function QueueAll(s: System, cfg: Config, c: int, key: string, only: Option<Channel>): System
    requires c in s.cards
  {
    QueueIfAllowed(QueueIfAllowed(s, cfg, c, Email, key, only), cfg, c, Telegram, key, only)
  }

  /** The rows of one transaction, updated in place. */
  class Store {
    var cards: map<int, Card>
    var consents: map<(int, Channel), Consent>
    var links: map<int, Link>
    var tokens: seq<Token>
    var outbox: seq<Message>
    var log: seq<Delivery>

    ghost function Value(): System
      reads this
    {
      System(cards, consents, links, tokens, outbox, log)
    }

    constructor (s: System)
      ensures Value() == s
    {
      cards, consents, links, tokens, outbox, log := s.cards, s.consents, s.links, s.tokens, s.outbox, s.log;
    }

    method RecordConsent(c: int, channel: Channel, granted: bool, source: Source) returns (r: Result<(), Error>)
      requires c in cards
      modifies this
      ensures match Record(old(Value()), c, channel, granted, source)
              case Failure(e) => r == Failure(e) && Value() == old(Value())
              case Success(after) => r == Success(()) && Value() == after
    {
      if channel == Email && granted && source != EmailConfirm {
        return Failure(EmailGrantNeedsConfirmation);
      }
      var consent := if (c, channel) in consents then consents[(c, channel)] else Consent(false, source, None);
      consent := consent.(granted := granted, source := source);
      if channel == Email {
        consent := consent.(address := cards[c].email);
      } else {
        consent := consent.(address := None);
      }
      consents := consents[(c, channel) := consent];
      if !granted {
        outbox := CancelChannel(outbox, c, channel);
      }
      r := Success(());
    }

    method QueueAllChannels(cfg: Config, c: int, key: string, only: Option<Channel>) returns (channels: seq<Channel>)
      requires c in cards
      modifies this
      ensures Value() == QueueAll(old(Value()), cfg, c, key, only)
      ensures |outbox| == |old(outbox)| + |channels|
    {
      channels := [];
      var order := [Email, Telegram];
      ghost var s := Value();
      for i := 0 to 2
        invariant cards == s.cards && consents == s.consents && links == s.links && tokens == s.tokens && log == s.log
        invariant Value() == if i == 0 then s
                             else if i == 1 then QueueIfAllowed(s, cfg, c, Email, key, only)
                             else QueueAll(s, cfg, c, key, only)
        invariant |outbox| == |s.outbox| + |channels|
      {
        var channel := order[i];
        var link := if c in links then Some(links[c]) else None;
        var state := StateOf(cards[c], ConsentOf(consents, c, channel), link, channel, cfg, false);
        if state == Allowed && (only.None? || only.value == channel) {
          if !Taken(outbox, key, channel) {
            outbox := outbox + [Message(c, channel, Regular(key), Queued)];
            channels := channels + [channel];
          }
        }
      }
    }
  }

  // ---------------------------------------------------------------- the double opt-in

  /** Unconsumed tokens of the candidate are consumed as superseded. */
  function Supersede(tokens: seq<Token>, c: int): seq<Token> {
    seq(|tokens|, i requires 0 <= i < |tokens| =>
      if tokens[i].candidate == c && tokens[i].state == Alive then tokens[i].(state := Superseded) else tokens[i])
  }

  /** A token of the candidate that nobody has consumed yet. */
  predicate IsOpen(tokens: seq<Token>, c: int, t: nat) {
    t < |tokens| && tokens[t].candidate == c && tokens[t].state == Alive
  }

  /** The queued letters of the candidate's open tokens are cancelled. */
  function CancelLetters(outbox: seq<Message>, tokens: seq<Token>, c: int): seq<Message> {
    seq(|outbox|, i requires 0 <= i < |outbox| =>
      var m := outbox[i];
      if m.status == Queued && m.kind.Letter? && IsOpen(tokens, c, m.kind.token) then m.(status := Cancelled) else m)
  }

  predicate Reachable(s: System, c: int) { c in s.cards && !s.cards[c].deleted }

  function Initiate(s: System, cfg: Config, c: int, now: int): System {
    if !Reachable(s, c) || !cfg.email || s.cards[c].email.None? then s
    else
      var token := Token(c, s.cards[c].email.value, now + cfg.tokenLife, Alive);
      s.(tokens := Supersede(s.tokens, c) + [token],
         outbox := CancelLetters(s.outbox, s.tokens, c) + [Message(c, Email, Letter(|s.tokens|), Queued)])
  }

  predicate CanConfirm(s: System, t: nat, now: int) {
    && t < |s.tokens|
    && s.tokens[t].state == Alive
    && s.tokens[t].expires > now
    && Reachable(s, s.tokens[t].candidate)
    && s.cards[s.tokens[t].candidate].email == Some(s.tokens[t].address)
  }

  /** The candidate's click on the link of token `t`. */
  function Confirm(s: System, t: nat, now: int): System {
    if !CanConfirm(s, t, now) then s
    else
      var c := s.tokens[t].candidate;
      var clicked := s.tokens[t := s.tokens[t].(state := Confirmed)];
      Record(s.(tokens := Supersede(clicked, c), outbox := CancelLetters(s.outbox, clicked, c)),
             c, Email, true, EmailConfirm).value
  }

  /** A confirmed Telegram start: the binding, and the consent unless a decision is already recorded. */
  function Connect(s: System, c: int, chat: int): System {
    if !Reachable(s, c) then s
    else
      var linked := s.(links := s.links[c := Link(Some(chat), false, false)]);
      if (c, Telegram) in s.consents then linked else Record(linked, c, Telegram, true, TelegramStart).value
  }

  function Unlink(s: System, c: int): System {
    var links := if c in s.links then s.links[c := s.links[c].(revoked := true)] else s.links;
    s.(links := links, outbox := CancelChannel(s.outbox, c, Telegram))
  }

  // ---------------------------------------------------------------- sending

  /** `_resolve_candidate_target`: where a claimed row may go, decided at send time. */
  function Resolve(s: System, cfg: Config, m: Message, now: int): Option<Target> {
    if !Reachable(s, m.candidate) then None
    else
      var card := s.cards[m.candidate];
      match m.kind
      case Letter(t) =>
        if m.channel == Email && cfg.email && card.email.Some? && t < |s.tokens|
           && s.tokens[t].candidate == m.candidate && s.tokens[t].state == Alive && s.tokens[t].expires > now
           && card.email == Some(s.tokens[t].address)
        then Some(Mailbox(card.email.value)) else None
      case Regular(_) =>
        var consent := ConsentOf(s.consents, m.candidate, m.channel);
        if consent.None? || !consent.value.granted then None
        else match m.channel
          case Telegram =>
            if cfg.telegram && m.candidate in s.links && s.links[m.candidate].chat.Some? && !s.links[m.candidate].revoked
            then Some(Chat(s.links[m.candidate].chat.value)) else None
          case Email =>
            if cfg.email && card.email.Some? && consent.value.source == EmailConfirm && consent.value.address == card.email
            then Some(Mailbox(card.email.value)) else None
  }

  function SetStatus(s: System, i: nat, from: Status, to: Status): System {
    if i < |s.outbox| && s.outbox[i].status == from then s.(outbox := s.outbox[i := s.outbox[i].(status := to)]) else s
  }

  /**
    The provider call. The row goes on reading as being sent until it is finalised, so a crash or a
    temporary error can put it back although it has left.
   */
  function Deliver(s: System, cfg: Config, i: nat, now: int): System {
    if i >= |s.outbox| || s.outbox[i].status != Sending then s
    else
      var target := Resolve(s, cfg, s.outbox[i], now);
      if target.None? then SetStatus(s, i, Sending, Skipped)
      else s.(log := s.log + [Delivery(i, target.value)])
  }

  datatype Event =
    | SetCard(c: int, card: Card)
    | HrDecides(c: int, channel: Channel, granted: bool)
    | InitiateConfirmation(c: int, now: int)
    | ClickLink(t: nat, now: int)
    | ConnectTelegram(c: int, chat: int)
    | UnlinkTelegram(c: int)
    | ProviderFails(c: int)
    | QueueMessage(c: int, key: string, only: Option<Channel>)
    | Claim(i: nat)
    | Requeue(i: nat)                    // a postponed, retried or recovered row
    | Send(i: nat, now: int)
    | Finalise(i: nat, accepted: bool)

  function Step(s: System, cfg: Config, e: Event): System {
    match e
    case SetCard(c, card) => s.(cards := s.cards[c := card])
    case HrDecides(c, channel, granted) =>
      if !Reachable(s, c) then s
      else
        var r := Record(s, c, channel, granted, HrRecorded);
        if r.Success? then r.value else s
    case InitiateConfirmation(c, now) => Initiate(s, cfg, c, now)
    case ClickLink(t, now) => Confirm(s, t, now)
    case ConnectTelegram(c, chat) => Connect(s, c, chat)
    case UnlinkTelegram(c) => Unlink(s, c)
    case ProviderFails(c) => if c in s.links then s.(links := s.links[c := s.links[c].(failing := true)]) else s
    case QueueMessage(c, key, only) => if Reachable(s, c) then QueueAll(s, cfg, c, key, only) else s
    case Claim(i) => SetStatus(s, i, Queued, Sending)
    case Requeue(i) => SetStatus(s, i, Sending, Queued)
    case Send(i, now) => Deliver(s, cfg, i, now)
    case Finalise(i, accepted) => SetStatus(s, i, Sending, if accepted then Sent else Failed)
  }

  function Run(cfg: Config, events: seq<Event>): System {
    if events == [] then System(map[], map[], map[], [], [], [])
    else Step(Run(cfg, events[..|events| - 1]), cfg, events[|events| - 1])
  }

  // ---------------------------------------------------------------- what every run keeps

  /** Some link issued for this candidate and this very address was clicked. */
  ghost predicate ConfirmedBy(tokens: seq<Token>, c: int, address: string) {
    exists t :: 0 <= t < |tokens| && tokens[t].candidate == c && tokens[t].address == address && tokens[t].state == Confirmed
  }

  /** Every granted email consent came from the candidate's own click and is pinned to its address. */
  ghost predicate Pinned(consents: map<(int, Channel), Consent>, tokens: seq<Token>) {
    forall c :: (c, Email) in consents && consents[(c, Email)].granted ==>
      var consent := consents[(c, Email)];
      consent.source == EmailConfirm && consent.address.Some? && ConfirmedBy(tokens, c, consent.address.value)
  }

  ghost predicate OneAlive(tokens: seq<Token>) {
    forall i, j :: 0 <= i < j < |tokens| && tokens[i].state == Alive == tokens[j].state ==>
      tokens[i].candidate != tokens[j].candidate
  }

  /** Tokens keep whom and where they are for, and a consumed one stays consumed as it is. */
  ghost predicate TokensGrow(a: seq<Token>, b: seq<Token>) {
    |a| <= |b| && forall i :: 0 <= i < |a| ==>
      b[i] == a[i].(state := b[i].state) && (a[i].state != Alive ==> b[i] == a[i])
  }

  /** Rows keep whom they are for and what they are. */
  ghost predicate OutboxGrows(a: seq<Message>, b: seq<Message>) {
    |a| <= |b| && forall i :: 0 <= i < |a| ==> b[i] == a[i].(status := b[i].status)
  }

  /** A regular email went to an address that its candidate confirmed by a click. */
  ghost predicate WentRight(s: System, d: Delivery) {
    && d.message < |s.outbox|
    && var m := s.outbox[d.message];
    && (d.to.Mailbox? <==> m.channel == Email)
    && (m.channel == Email && m.kind.Regular? ==> ConfirmedBy(s.tokens, m.candidate, d.to.address))
  }

  ghost predicate Inv(s: System) {
    Pinned(s.consents, s.tokens) && OneAlive(s.tokens) && forall k :: 0 <= k < |s.log| ==> WentRight(s, s.log[k])
  }

  /** A queued regular message has a granted consent row; a queued letter is not superseded. */
  ghost predicate Covered(s: System, m: Message) {
    m.status == Queued ==>
      match m.kind
      case Regular(_) => (m.candidate, m.channel) in s.consents && s.consents[(m.candidate, m.channel)].granted
      case Letter(t) => t < |s.tokens| && s.tokens[t].state != Superseded && m.candidate == s.tokens[t].candidate
  }

  ghost predicate AllCovered(s: System) { forall i :: 0 <= i < |s.outbox| ==> Covered(s, s.outbox[i]) }

  lemma LogStays(a: System, b: System)
    requires TokensGrow(a.tokens, b.tokens) && OutboxGrows(a.outbox, b.outbox) && a.log == b.log
    requires forall k :: 0 <= k < |a.log| ==> WentRight(a, a.log[k])
    ensures forall k :: 0 <= k < |b.log| ==> WentRight(b, b.log[k])
  {
  }

  lemma RecordKeeps(s: System, c: int, channel: Channel, granted: bool, source: Source)
    requires Inv(s) && c in s.cards && Record(s, c, channel, granted, source).Success?
    requires channel == Email && granted ==> s.cards[c].email.Some? && ConfirmedBy(s.tokens, c, s.cards[c].email.value)
    ensures var after := Record(s, c, channel, granted, source).value;
            Inv(after) && TokensGrow(s.tokens, after.tokens) && OutboxGrows(s.outbox, after.outbox)
  {
  }

  /** Recording a decision leaves every queued row covered; a refusal leaves none on the channel. */
  lemma RecordCovers(s: System, c: int, channel: Channel, granted: bool, source: Source)
    requires c in s.cards && AllCovered(s) && Record(s, c, channel, granted, source).Success?
    ensures AllCovered(Record(s, c, channel, granted, source).value)
    ensures !granted ==> forall i :: 0 <= i < |s.outbox| ==>
      var m := Record(s, c, channel, granted, source).value.outbox[i];
      m.candidate == c && m.channel == channel ==> m.status != Queued
  {
  }

  lemma QueueOneKeeps(s: System, cfg: Config, c: int, channel: Channel, key: string, only: Option<Channel>)
    requires c in s.cards && Inv(s)
    ensures var after := QueueIfAllowed(s, cfg, c, channel, key, only);
            Inv(after) && OutboxGrows(s.outbox, after.outbox) && (AllCovered(s) ==> AllCovered(after))
  {
  }

  lemma SupersedeKeeps(tokens: seq<Token>, c: int)
    requires OneAlive(tokens)
    ensures TokensGrow(tokens, Supersede(tokens, c)) && OneAlive(Supersede(tokens, c))
    ensures forall i :: 0 <= i < |tokens| && Supersede(tokens, c)[i].candidate == c ==> Supersede(tokens, c)[i].state != Alive
  {
  }

  lemma LettersKeep(outbox: seq<Message>, tokens: seq<Token>, c: int)
    ensures OutboxGrows(outbox, CancelLetters(outbox, tokens, c))
  {
  }

  lemma InitiateKeeps(s: System, cfg: Config, c: int, now: int)
    requires Inv(s)
    ensures var after := Initiate(s, cfg, c, now);
            Inv(after) && TokensGrow(s.tokens, after.tokens) && OutboxGrows(s.outbox, after.outbox)
  {
    var after := Initiate(s, cfg, c, now);
    SupersedeKeeps(s.tokens, c);
    LettersKeep(s.outbox, s.tokens, c);
    LogStays(s, after);
  }

  lemma InitiateCovers(s: System, cfg: Config, c: int, now: int)
    requires AllCovered(s)
    ensures AllCovered(Initiate(s, cfg, c, now))
  {
  }

  lemma ConfirmKeeps(s: System, t: nat, now: int)
    requires Inv(s)
    ensures var after := Confirm(s, t, now);
            Inv(after) && TokensGrow(s.tokens, after.tokens) && OutboxGrows(s.outbox, after.outbox)
  {
    if CanConfirm(s, t, now) {
      var c := s.tokens[t].candidate;
      var clicked := s.tokens[t := s.tokens[t].(state := Confirmed)];
      var tokens := Supersede(clicked, c);
      SupersedeKeeps(clicked, c);
      var mid := s.(tokens := tokens, outbox := CancelLetters(s.outbox, clicked, c));
      LettersKeep(s.outbox, clicked, c);
      assert TokensGrow(s.tokens, tokens);
      LogStays(s, mid);
      assert tokens[t].state == Confirmed && tokens[t].candidate == c;
      RecordKeeps(mid, c, Email, true, EmailConfirm);
    }
  }

  lemma ConfirmCovers(s: System, t: nat, now: int)
    requires AllCovered(s)
    ensures AllCovered(Confirm(s, t, now))
  {
  }

  lemma ConnectKeeps(s: System, c: int, chat: int)
    requires Inv(s)
    ensures var after := Connect(s, c, chat);
            Inv(after) && OutboxGrows(s.outbox, after.outbox) && (AllCovered(s) ==> AllCovered(after))
  {
  }

  lemma UnlinkKeeps(s: System, c: int)
    requires Inv(s)
    ensures var after := Unlink(s, c);
            Inv(after) && OutboxGrows(s.outbox, after.outbox) && (AllCovered(s) ==> AllCovered(after))
  {
  }

  lemma StatusKeeps(s: System, i: nat, from: Status, to: Status)
    requires Inv(s)
    ensures var after := SetStatus(s, i, from, to);
            Inv(after) && OutboxGrows(s.outbox, after.outbox) && (AllCovered(s) && to != Queued ==> AllCovered(after))
  {
    var after := SetStatus(s, i, from, to);
    LogStays(s, after);
    if AllCovered(s) && to != Queued {
      forall j | 0 <= j < |after.outbox| ensures Covered(after, after.outbox[j]) {
        assert Covered(s, s.outbox[j]);
      }
    }
  }

  lemma DeliverKeeps(s: System, cfg: Config, i: nat, now: int)
    requires Inv(s)
    ensures var after := Deliver(s, cfg, i, now);
            Inv(after) && OutboxGrows(s.outbox, after.outbox) && (AllCovered(s) ==> AllCovered(after))
  {
    if i < |s.outbox| && s.outbox[i].status == Sending {
      var after, target := Deliver(s, cfg, i, now), Resolve(s, cfg, s.outbox[i], now);
      if target.None? {
        StatusKeeps(s, i, Sending, Skipped);
      } else {
        assert WentRight(after, Delivery(i, target.value));
        forall k | 0 <= k < |after.log| ensures WentRight(after, after.log[k]) {
          assert k < |s.log| ==> WentRight(s, s.log[k]);
        }
        CoverLooksAt(s, after);
      }
    }
  }

  /** Whether rows are covered depends on consents and tokens only. */
  lemma CoverLooksAt(a: System, b: System)
    requires a.consents == b.consents && a.tokens == b.tokens && a.outbox == b.outbox
    ensures AllCovered(a) <==> AllCovered(b)
  {
    assert forall i :: 0 <= i < |a.outbox| ==> (Covered(a, a.outbox[i]) <==> Covered(b, b.outbox[i]));
  }

  /** A row that is put back was being sent, and would be covered in the queue. */
  ghost predicate RequeueOk(s: System, e: Event) {
    e.Requeue? && e.i < |s.outbox| && s.outbox[e.i].status == Sending ==> Covered(s, s.outbox[e.i].(status := Queued))
  }

  lemma RequeueCoversIff(s: System, i: nat)
    requires AllCovered(s)
    ensures AllCovered(SetStatus(s, i, Sending, Queued)) <==> RequeueOk(s, Requeue(i))
  {
    var after := SetStatus(s, i, Sending, Queued);
    if i < |s.outbox| && s.outbox[i].status == Sending {
      assert Covered(after, after.outbox[i]) <==> Covered(s, s.outbox[i].(status := Queued));
      if RequeueOk(s, Requeue(i)) {
        forall j | 0 <= j < |after.outbox| ensures Covered(after, after.outbox[j]) {
          assert Covered(s, s.outbox[j]);
        }
      }
    }
  }

  lemma OthersKeep(s: System, after: System)
    requires Inv(s) && after.consents == s.consents && after.tokens == s.tokens && after.outbox == s.outbox && after.log == s.log
    ensures Inv(after) && (AllCovered(s) ==> AllCovered(after))
  {
  }

  lemma DecideKeeps(s: System, c: int, channel: Channel, granted: bool)
    requires Inv(s) && Reachable(s, c) && Record(s, c, channel, granted, HrRecorded).Success?
    ensures var after := Record(s, c, channel, granted, HrRecorded).value;
            Inv(after) && (AllCovered(s) ==> AllCovered(after))
  {
  }

  lemma StepKeeps(s: System, cfg: Config, e: Event)
    requires Inv(s)
    ensures Inv(Step(s, cfg, e))
    ensures AllCovered(s) ==> (AllCovered(Step(s, cfg, e)) <==> RequeueOk(s, e))
  {
    match e {
      case HrDecides(c, channel, granted) =>
        if Reachable(s, c) && Record(s, c, channel, granted, HrRecorded).Success? {
          DecideKeeps(s, c, channel, granted);
        }
      case InitiateConfirmation(c, now) =>
        InitiateKeeps(s, cfg, c, now);
        if AllCovered(s) {
          InitiateCovers(s, cfg, c, now);
        }
      case ClickLink(t, now) =>
        ConfirmKeeps(s, t, now);
        if AllCovered(s) {
          ConfirmCovers(s, t, now);
        }
      case ConnectTelegram(c, chat) => ConnectKeeps(s, c, chat);
      case UnlinkTelegram(c) => UnlinkKeeps(s, c);
      case QueueMessage(c, key, only) =>
        if Reachable(s, c) {
          QueueOneKeeps(s, cfg, c, Email, key, only);
          QueueOneKeeps(QueueIfAllowed(s, cfg, c, Email, key, only), cfg, c, Telegram, key, only);
        }
      case Claim(i) => StatusKeeps(s, i, Queued, Sending);
      case Requeue(i) =>
        StatusKeeps(s, i, Sending, Queued);
        if AllCovered(s) {
          RequeueCoversIff(s, i);
        }
      case Finalise(i, accepted) => StatusKeeps(s, i, Sending, if accepted then Sent else Failed);
      case Send(i, now) => DeliverKeeps(s, cfg, i, now);
      case _ => OthersKeep(s, Step(s, cfg, e));
    }
  }

  /**
    In every run, with workers claiming, retrying and sending in between: a granted email consent
    came from a click on a link issued for that very address, no candidate has two live links, and
    every regular email that left went to an address its candidate confirmed.
   */
  lemma {:induction false} RunKeeps(cfg: Config, events: seq<Event>)
    ensures Inv(Run(cfg, events))
  {
    if events == [] {
    } else {
      RunKeeps(cfg, events[..|events| - 1]);
      StepKeeps(Run(cfg, events[..|events| - 1]), cfg, events[|events| - 1]);
    }
  }

  /** Every row is covered at every moment of the run. */
  ghost predicate CoveredThroughout(cfg: Config, events: seq<Event>) {
    AllCovered(Run(cfg, events)) && (events == [] || CoveredThroughout(cfg, events[..|events| - 1]))
  }

  /** Every row put back during the run was fit to be put back at that moment. */
  ghost predicate RequeuesOk(cfg: Config, events: seq<Event>) {
    events == [] || (RequeuesOk(cfg, events[..|events| - 1])
                     && RequeueOk(Run(cfg, events[..|events| - 1]), events[|events| - 1]))
  }

  /**
    At every moment of a run each queued regular message has its granted consent row and no queued
    letter is superseded, if and only if every row a worker put back was, when it was put back, one
    whose consent still stood or whose letter was not superseded. No other event can break this.
   */
  lemma {:induction false} QueuedIsCovered(cfg: Config, events: seq<Event>)
    ensures CoveredThroughout(cfg, events) <==> RequeuesOk(cfg, events)
  {
    if events == [] {
    } else {
      var front := events[..|events| - 1];
      QueuedIsCovered(cfg, front);
      RunKeeps(cfg, front);
      StepKeeps(Run(cfg, front), cfg, events[|events| - 1]);
    }
  }

  predicate IsRegularOf(m: Message, c: int, channel: Channel) {
    m.candidate == c && m.channel == channel && m.kind.Regular?
  }

  /**
    A refusal by the candidate's HR is immediate: whatever was queued on the channel is cancelled, the
    channel stays closed to new messages, and a row of it already claimed is skipped when its turn comes.
   */
  lemma RefusalIsImmediate(s: System, cfg: Config, c: int, channel: Channel, key: string, i: nat, now: int)
    requires Reachable(s, c)
    ensures var after := Step(s, cfg, HrDecides(c, channel, false));
            && |after.outbox| == |s.outbox|
            && (forall j :: 0 <= j < |after.outbox| ==>
                  (after.outbox[j].candidate == c && after.outbox[j].channel == channel ==> after.outbox[j].status != Queued))
            && !IsAllowed(after, cfg, c, channel)
            && QueueAll(after, cfg, c, key, Some(channel)) == after
            && (i < |after.outbox| && IsRegularOf(after.outbox[i], c, channel) ==>
                  Resolve(after, cfg, after.outbox[i], now) == None)
  {
  }

  /** The last decision recorded for the channel was a refusal. */
  predicate Refused(s: System, c: int, channel: Channel) {
    (c, channel) in s.consents && !s.consents[(c, channel)].granted
  }

  /** What ends a refusal: the HR's grant for Telegram, the candidate's own valid click for email. */
  predicate Regrants(s: System, e: Event, c: int, channel: Channel) {
    match channel
    case Telegram => e == HrDecides(c, Telegram, true) && Reachable(s, c)
    case Email => e.ClickLink? && CanConfirm(s, e.t, e.now) && s.tokens[e.t].candidate == c
  }

  /** A refusal stands until the one event that ends it. */
  lemma RefusalEndsIff(s: System, cfg: Config, e: Event, c: int, channel: Channel)
    requires Refused(s, c, channel)
    ensures Refused(Step(s, cfg, e), c, channel) <==> !Regrants(s, e, c, channel)
  {
  }

  /** Nothing regular was queued or sent for the candidate on the channel between two states. */
  ghost predicate Quiet(a: System, b: System, c: int, channel: Channel) {
    && OutboxGrows(a.outbox, b.outbox) && a.log <= b.log
    && (forall i :: |a.outbox| <= i < |b.outbox| ==> !IsRegularOf(b.outbox[i], c, channel))
    && forall k :: |a.log| <= k < |b.log| ==> NotTo(b.outbox, b.log[k], c, channel)
  }

  ghost predicate NotTo(outbox: seq<Message>, d: Delivery, c: int, channel: Channel) {
    d.message < |outbox| && !IsRegularOf(outbox[d.message], c, channel)
  }

  /** No event of the run after its first `n` ends the refusal. */
  ghost predicate NoRegrant(cfg: Config, events: seq<Event>, n: nat, c: int, channel: Channel) {
    |events| <= n || (NoRegrant(cfg, events[..|events| - 1], n, c, channel)
                      && !Regrants(Run(cfg, events[..|events| - 1]), events[|events| - 1], c, channel))
  }

  ghost predicate Closed(s: System, cfg: Config, c: int, channel: Channel)
    requires c in s.cards
  {
    var link := if c in s.links then Some(s.links[c]) else None;
    StateOf(s.cards[c], ConsentOf(s.consents, c, channel), link, channel, cfg, false) in {Forbidden, NotConnected}
  }

  lemma RefusedIsClosed(s: System, cfg: Config, c: int, channel: Channel)
    requires Refused(s, c, channel) && c in s.cards
    ensures Closed(s, cfg, c, channel) && !IsAllowed(s, cfg, c, channel)
  {
  }

  lemma QueueIsQuiet(s: System, cfg: Config, d: int, key: string, only: Option<Channel>, c: int, channel: Channel)
    requires Refused(s, c, channel) && d in s.cards
    ensures Quiet(s, QueueAll(s, cfg, d, key, only), c, channel)
  {
    if d == c {
      RefusedIsClosed(s, cfg, c, channel);
    }
  }

  lemma SendIsQuiet(s: System, cfg: Config, i: nat, now: int, c: int, channel: Channel)
    requires Refused(s, c, channel)
    ensures Quiet(s, Deliver(s, cfg, i, now), c, channel)
  {
    if i < |s.outbox| && s.outbox[i].status == Sending && IsRegularOf(s.outbox[i], c, channel) {
      assert Resolve(s, cfg, s.outbox[i], now).None?;
    }
  }

  /** No event queues or sends anything regular on a refused channel. */
  lemma RefusedStepIsQuiet(s: System, cfg: Config, e: Event, c: int, channel: Channel)
    requires Inv(s) && Refused(s, c, channel)
    ensures Quiet(s, Step(s, cfg, e), c, channel)
  {
    match e {
      case InitiateConfirmation(d, now) => InitiateKeeps(s, cfg, d, now);
      case ClickLink(t, now) => ConfirmKeeps(s, t, now);
      case ConnectTelegram(d, chat) => ConnectKeeps(s, d, chat);
      case UnlinkTelegram(d) => UnlinkKeeps(s, d);
      case QueueMessage(d, key, only) =>
        if Reachable(s, d) {
          QueueIsQuiet(s, cfg, d, key, only, c, channel);
        }
      case Send(i, now) => SendIsQuiet(s, cfg, i, now, c, channel);
      case _ =>
    }
  }

  lemma QuietTransitive(x: System, y: System, z: System, c: int, channel: Channel)
    requires Quiet(x, y, c, channel) && Quiet(y, z, c, channel)
    ensures Quiet(x, z, c, channel)
  {
  }

  /**
    A refusal holds: until the event that ends it, nothing regular is queued or sent on the channel,
    whatever workers, other decisions, card edits and new links do meanwhile; and the channel is closed.
   */
  lemma {:induction false} RefusalHolds(cfg: Config, events: seq<Event>, n: nat, c: int, channel: Channel)
    requires n <= |events| && Refused(Run(cfg, events[..n]), c, channel) && NoRegrant(cfg, events, n, c, channel)
    ensures Refused(Run(cfg, events), c, channel) && Quiet(Run(cfg, events[..n]), Run(cfg, events), c, channel)
    ensures c in Run(cfg, events).cards ==> Closed(Run(cfg, events), cfg, c, channel)
    decreases |events|
  {
    if n < |events| {
      var front, last := events[..|events| - 1], events[|events| - 1];
      assert front[..n] == events[..n];
      RefusalHolds(cfg, front, n, c, channel);
      RunKeeps(cfg, front);
      RefusalEndsIff(Run(cfg, front), cfg, last, c, channel);
      RefusedStepIsQuiet(Run(cfg, front), cfg, last, c, channel);
      QuietTransitive(Run(cfg, events[..n]), Run(cfg, front), Run(cfg, events), c, channel);
    } else {
      assert events[..n] == events;
    }
    if c in Run(cfg, events).cards {
      RefusedIsClosed(Run(cfg, events), cfg, c, channel);
    }
  }

  /**
    The requeue that breaks coverage, in any state that has a claimed regular row: a refusal, and then
    the row is put back. It still goes nowhere, because it is resolved again when it is sent.
   */
  lemma RequeueOutlivesRefusal(s: System, cfg: Config, c: int, channel: Channel, i: nat, now: int)
    requires Reachable(s, c) && i < |s.outbox| && IsRegularOf(s.outbox[i], c, channel) && s.outbox[i].status == Sending
    ensures var refused := Step(s, cfg, HrDecides(c, channel, false));
            var after := Step(refused, cfg, Requeue(i));
            && !RequeueOk(refused, Requeue(i)) && after.outbox[i].status == Queued && !AllCovered(after)
            && Step(Step(after, cfg, Claim(i)), cfg, Send(i, now)).log == s.log
  {
    var after := Step(Step(s, cfg, HrDecides(c, channel, false)), cfg, Requeue(i));
    assert !Covered(after, after.outbox[i]);
  }

  // ---------------------------------------------------------------- where messages go

  /**
    A message may go to this target now: the candidate exists, and for a letter its token is alive and
    is for the card's address; for a regular message the consent is granted, and the target is the chat
    of the candidate's unrevoked link, or the card's address if that is the one confirmed by a click.
   */
  ghost predicate MayGo(s: System, cfg: Config, m: Message, now: int, to: Target) {
    && m.candidate in s.cards && !s.cards[m.candidate].deleted
    && match m.kind
       case Letter(t) =>
         && m.channel == Email && cfg.email && t < |s.tokens| && s.tokens[t].candidate == m.candidate
         && s.tokens[t].state == Alive && s.tokens[t].expires > now
         && s.cards[m.candidate].email == Some(s.tokens[t].address) && to == Mailbox(s.tokens[t].address)
       case Regular(_) =>
         && (m.candidate, m.channel) in s.consents && s.consents[(m.candidate, m.channel)].granted
         && if m.channel == Telegram
            then cfg.telegram && m.candidate in s.links && !s.links[m.candidate].revoked
                 && Some(to) == (if s.links[m.candidate].chat.Some? then Some(Chat(s.links[m.candidate].chat.value)) else None)
            else cfg.email && s.consents[(m.candidate, m.channel)].source == EmailConfirm && to.Mailbox?
                 && s.consents[(m.candidate, m.channel)].address == s.cards[m.candidate].email == Some(to.address)
  }

  /** A claimed row is handed over exactly when it may go somewhere, and then there; any other is skipped. */
  lemma SendsExactly(s: System, cfg: Config, i: nat, now: int)
    requires i < |s.outbox| && s.outbox[i].status == Sending
    ensures forall to :: MayGo(s, cfg, s.outbox[i], now, to) ==>
              Step(s, cfg, Send(i, now)) == s.(log := s.log + [Delivery(i, to)])
    ensures (forall to :: !MayGo(s, cfg, s.outbox[i], now, to)) ==>
              Step(s, cfg, Send(i, now)) == s.(outbox := s.outbox[i := s.outbox[i].(status := Skipped)])
  {
    var m := s.outbox[i];
    var target := Resolve(s, cfg, m, now);
    assert target.Some? ==> MayGo(s, cfg, m, now, target.value);
    forall to | MayGo(s, cfg, m, now, to) ensures target == Some(to) {
    }
  }

  /** The event hands over this delivery, of a row that may go there at that moment. */
  ghost predicate SentNow(s: System, cfg: Config, e: Event, d: Delivery) {
    e.Send? && e.i == d.message < |s.outbox| && s.outbox[e.i].status == Sending && MayGo(s, cfg, s.outbox[e.i], e.now, d.to)
  }

  /** One step logs at most one delivery. */
  lemma StepDelivers(s: System, cfg: Config, e: Event)
    ensures s.log <= Step(s, cfg, e).log && |Step(s, cfg, e).log| <= |s.log| + 1
    ensures |Step(s, cfg, e).log| > |s.log| ==> SentNow(s, cfg, e, Step(s, cfg, e).log[|s.log|])
  {
    if e.Send? && e.i < |s.outbox| && s.outbox[e.i].status == Sending {
      SendsExactly(s, cfg, e.i, e.now);
    }
  }

  /** Every provider call of every run was of a row that might go there at that moment: `n` says when. */
  lemma {:induction false} DeliveriesWereRight(cfg: Config, events: seq<Event>, k: nat) returns (n: nat)
    requires k < |Run(cfg, events).log|
    ensures n < |events| && |Run(cfg, events[..n]).log| == k < |Run(cfg, events[..n + 1]).log|
    ensures SentNow(Run(cfg, events[..n]), cfg, events[n], Run(cfg, events).log[k])
  {
    var front, last := events[..|events| - 1], |events| - 1;
    StepDelivers(Run(cfg, front), cfg, events[last]);
    if k < |Run(cfg, front).log| {
      n := DeliveriesWereRight(cfg, front, k);
      assert front[..n] == events[..n] && front[..n + 1] == events[..n + 1];
    } else {
      n := last;
      assert events[..n + 1] == events;
    }
  }

  /** The row of a delivery is the one that was handed over, whatever its status is now. */
  lemma {:induction false} RunOutboxGrows(cfg: Config, events: seq<Event>, n: nat)
    requires n <= |events|
    ensures OutboxGrows(Run(cfg, events[..n]).outbox, Run(cfg, events).outbox)
  {
    if n < |events| {
      var front := events[..|events| - 1];
      RunOutboxGrows(cfg, front, n);
      assert front[..n] == events[..n];
      RunKeeps(cfg, front);
      StepOutboxGrows(Run(cfg, front), cfg, events[|events| - 1]);
    } else {
      assert events[..n] == events;
    }
  }

  lemma StepOutboxGrows(s: System, cfg: Config, e: Event)
    requires Inv(s)
    ensures OutboxGrows(s.outbox, Step(s, cfg, e).outbox)
  {
    match e {
      case InitiateConfirmation(d, now) => InitiateKeeps(s, cfg, d, now);
      case ClickLink(t, now) => ConfirmKeeps(s, t, now);
      case ConnectTelegram(d, chat) => ConnectKeeps(s, d, chat);
      case UnlinkTelegram(d) => UnlinkKeeps(s, d);
      case Send(i, now) => DeliverKeeps(s, cfg, i, now);
      case _ =>
    }
  }

  /** The chat the candidate connected last, unless it was unlinked since. */
  ghost function ConnectedChat(cfg: Config, events: seq<Event>, c: int): Option<int> {
    if events == [] then None
    else
      var front, last := events[..|events| - 1], events[|events| - 1];
      match last
      case ConnectTelegram(d, chat) =>
        if d == c && c in Run(cfg, front).cards && !Run(cfg, front).cards[c].deleted then Some(chat) else ConnectedChat(cfg, front, c)
      case UnlinkTelegram(d) => if d == c then None else ConnectedChat(cfg, front, c)
      case _ => ConnectedChat(cfg, front, c)
  }

  ghost function LinkedChat(s: System, c: int): Option<int> {
    if c in s.links && !s.links[c].revoked then s.links[c].chat else None
  }

  lemma StepLinks(s: System, cfg: Config, e: Event, c: int)
    ensures LinkedChat(Step(s, cfg, e), c) ==
      if e.ConnectTelegram? && e.c == c && c in s.cards && !s.cards[c].deleted then Some(e.chat)
      else if e.UnlinkTelegram? && e.c == c then None
      else LinkedChat(s, c)
  {
  }

  lemma {:induction false} LinkIsTheLastStart(cfg: Config, events: seq<Event>, c: int)
    ensures LinkedChat(Run(cfg, events), c) == ConnectedChat(cfg, events, c)
  {
    if events != [] {
      LinkIsTheLastStart(cfg, events[..|events| - 1], c);
      StepLinks(Run(cfg, events[..|events| - 1]), cfg, events[|events| - 1], c);
    }
  }

  /**
    Every regular Telegram message of every run went, under a granted consent, to the chat that its
    own candidate had connected last and not unlinked since.
   */
  lemma TelegramGoesToItsCandidate(cfg: Config, events: seq<Event>, k: nat) returns (n: nat)
    requires k < |Run(cfg, events).log|
    ensures var d, s := Run(cfg, events).log[k], Run(cfg, events);
            && n < |events| && |Run(cfg, events[..n]).log| == k && d.message < |s.outbox|
            && var m := s.outbox[d.message];
            (m.kind.Regular? && m.channel == Telegram ==>
              && ConnectedChat(cfg, events[..n], m.candidate).Some?
              && d.to == Chat(ConnectedChat(cfg, events[..n], m.candidate).value)
              && LastDecision(cfg, events[..n], m.candidate, Telegram) == Some(true))
  {
    n := DeliveriesWereRight(cfg, events, k);
    RunOutboxGrows(cfg, events, n);
    var c := Run(cfg, events).outbox[Run(cfg, events).log[k].message].candidate;
    LinkIsTheLastStart(cfg, events[..n], c);
    ConsentIsTheLastDecision(cfg, events[..n], c, Telegram);
  }

  lemma {:induction false} LogOnlyGrows(cfg: Config, events: seq<Event>, n: nat)
    requires n <= |events|
    ensures Run(cfg, events[..n]).log <= Run(cfg, events).log
  {
    if n < |events| {
      var front := events[..|events| - 1];
      LogOnlyGrows(cfg, front, n);
      assert front[..n] == events[..n];
      StepDelivers(Run(cfg, front), cfg, events[|events| - 1]);
    } else {
      assert events[..n] == events;
    }
  }

  lemma {:induction false} StaysUnlinked(cfg: Config, events: seq<Event>, n: nat, c: int)
    requires n <= |events| && ConnectedChat(cfg, events[..n], c).None?
    requires forall i :: n <= i < |events| ==> !(events[i].ConnectTelegram? && events[i].c == c)
    ensures ConnectedChat(cfg, events, c).None?
  {
    if n < |events| {
      assert events[..|events| - 1][..n] == events[..n];
      StaysUnlinked(cfg, events[..|events| - 1], n, c);
    } else {
      assert events[..n] == events;
    }
  }

  lemma NotBefore(cfg: Config, events: seq<Event>, n: nat, sent: nat)
    requires n <= |events| && sent < |events|
    requires |Run(cfg, events[..n]).log| <= |Run(cfg, events[..sent]).log| < |Run(cfg, events[..sent + 1]).log|
    ensures n <= sent
  {
    if sent < n {
      assert events[..n][..sent + 1] == events[..sent + 1];
      LogOnlyGrows(cfg, events[..n], sent + 1);
    }
  }

  lemma UnlinkUnlinks(cfg: Config, events: seq<Event>, n: nat, later: nat, c: int)
    requires n < later <= |events| && events[n] == UnlinkTelegram(c)
    requires forall i :: n < i < |events| ==> !(events[i].ConnectTelegram? && events[i].c == c)
    ensures ConnectedChat(cfg, events[..later], c).None?
  {
    assert events[..later][..n + 1] == events[..n + 1] && events[..n + 1][n] == events[n];
    StaysUnlinked(cfg, events[..later], n + 1, c);
  }

  /** Once unlinked, a candidate gets nothing on Telegram until it connects again, whatever was claimed before. */
  lemma UnlinkedGetsNothing(cfg: Config, events: seq<Event>, n: nat, c: int, k: nat)
    requires n < |events| && events[n] == UnlinkTelegram(c)
    requires forall i :: n < i < |events| ==> !(events[i].ConnectTelegram? && events[i].c == c)
    requires |Run(cfg, events[..n]).log| <= k < |Run(cfg, events).log|
    ensures Run(cfg, events).log[k].message < |Run(cfg, events).outbox|
    ensures !IsRegularOf(Run(cfg, events).outbox[Run(cfg, events).log[k].message], c, Telegram)
  {
    var sent := DeliveriesWereRight(cfg, events, k);
    RunOutboxGrows(cfg, events, sent);
    NotBefore(cfg, events, n, sent);
    if IsRegularOf(Run(cfg, events).outbox[Run(cfg, events).log[k].message], c, Telegram) {
      LinkIsTheLastStart(cfg, events[..sent], c);
      if n < sent {
        UnlinkUnlinks(cfg, events, n, sent, c);
      }
    }
  }

  // ---------------------------------------------------------------- consents and planning, from the events

  /** The decision an event leaves: by the HR, by a valid click, or by the first start of the bot. */
  ghost function DecisionAfter(s: System, e: Event, c: int, channel: Channel, before: Option<bool>): Option<bool> {
    var present := c in s.cards && !s.cards[c].deleted;
    match e
    case HrDecides(d, ch, granted) =>
      if d == c && ch == channel && present && !(channel == Email && granted) then Some(granted) else before
    case ClickLink(t, now) =>
      if channel == Email && t < |s.tokens| && s.tokens[t].candidate == c && s.tokens[t].state == Alive
         && s.tokens[t].expires > now && present && s.cards[c].email == Some(s.tokens[t].address)
      then Some(true) else before
    case ConnectTelegram(d, _) => if d == c && channel == Telegram && present && before.None? then Some(true) else before
    case _ => before
  }

  /** The last decision taken for the channel. */
  ghost function LastDecision(cfg: Config, events: seq<Event>, c: int, channel: Channel): Option<bool> {
    if events == [] then None
    else
      var front := events[..|events| - 1];
      DecisionAfter(Run(cfg, front), events[|events| - 1], c, channel, LastDecision(cfg, front, c, channel))
  }

  ghost function Decision(s: System, c: int, channel: Channel): Option<bool> {
    if (c, channel) in s.consents then Some(s.consents[(c, channel)].granted) else None
  }

  lemma StepDecides(s: System, cfg: Config, e: Event, c: int, channel: Channel)
    ensures Decision(Step(s, cfg, e), c, channel) == DecisionAfter(s, e, c, channel, Decision(s, c, channel))
  {
  }

  /** The stored consent is the last decision of the run. */
  lemma {:induction false} ConsentIsTheLastDecision(cfg: Config, events: seq<Event>, c: int, channel: Channel)
    ensures Decision(Run(cfg, events), c, channel) == LastDecision(cfg, events, c, channel)
  {
    if events != [] {
      ConsentIsTheLastDecision(cfg, events[..|events| - 1], c, channel);
      StepDecides(Run(cfg, events[..|events| - 1]), cfg, events[|events| - 1], c, channel);
    }
  }

  /** A channel that a message planned now can use. */
  ghost predicate Usable(s: System, cfg: Config, c: int, channel: Channel)
    requires c in s.cards
  {
    && (c, channel) in s.consents && s.consents[(c, channel)].granted
    && if channel == Telegram
       then cfg.telegram && c in s.links && s.links[c].chat.Some? && !s.links[c].revoked && !s.links[c].failing
       else cfg.email && s.cards[c].email.Some? && s.consents[(c, channel)].source == EmailConfirm
            && s.consents[(c, channel)].address == s.cards[c].email
  }

  /**
    Planning queues one row on each usable channel that is wanted and has no row of the key yet, email
    first, and changes nothing else; for a candidate who is gone it does nothing.
   */
  lemma PlansExactly(s: System, cfg: Config, c: int, key: string, only: Option<Channel>)
    ensures var after := Step(s, cfg, QueueMessage(c, key, only));
            if c in s.cards && !s.cards[c].deleted then
              var email := Usable(s, cfg, c, Email) && only != Some(Telegram)
                           && forall m :: m in s.outbox ==> !(m.kind == Regular(key) && m.channel == Email);
              var telegram := Usable(s, cfg, c, Telegram) && only != Some(Email)
                              && forall m :: m in s.outbox ==> !(m.kind == Regular(key) && m.channel == Telegram);
              after == s.(outbox := s.outbox + (if email then [Message(c, Email, Regular(key), Queued)] else [])
                                             + (if telegram then [Message(c, Telegram, Regular(key), Queued)] else []))
            else after == s
  {
    if c in s.cards && !s.cards[c].deleted {
      var mid := QueueIfAllowed(s, cfg, c, Email, key, only);
      PlansOne(s, cfg, c, Email, key, only);
      PlansOne(mid, cfg, c, Telegram, key, only);
      assert forall m :: m in mid.outbox && m !in s.outbox ==> m.channel == Email;
      assert Usable(mid, cfg, c, Telegram) <==> Usable(s, cfg, c, Telegram);
    }
  }

  lemma PlansOne(s: System, cfg: Config, c: int, channel: Channel, key: string, only: Option<Channel>)
    requires c in s.cards
    ensures QueueIfAllowed(s, cfg, c, channel, key, only) ==
      if Usable(s, cfg, c, channel) && (only.None? || only == Some(channel))
         && forall m :: m in s.outbox ==> !(m.kind == Regular(key) && m.channel == channel)
      then s.(outbox := s.outbox + [Message(c, channel, Regular(key), Queued)]) else s
  {
  }

  /**
    The double opt-in, end to end: the letter goes to the card's address while its link lives, the
    click on it makes exactly that address usable, and no earlier link of the candidate works any more.
   */
  lemma LetterThenClick(s: System, cfg: Config, c: int, now: int, sent: int, clicked: int)
    requires Inv(s) && c in s.cards && !s.cards[c].deleted && s.cards[c].email.Some? && cfg.email
    requires sent < now + cfg.tokenLife && clicked < now + cfg.tokenLife
    ensures var t, i := |s.tokens|, |s.outbox|;
            var lettered := Step(Step(Step(s, cfg, InitiateConfirmation(c, now)), cfg, Claim(i)), cfg, Send(i, sent));
            var after := Step(lettered, cfg, ClickLink(t, clicked));
            && lettered.log == s.log + [Delivery(i, Mailbox(s.cards[c].email.value))]
            && after.consents == s.consents[(c, Email) := Consent(true, EmailConfirm, s.cards[c].email)]
            && Usable(after, cfg, c, Email)
            && forall u: nat, later :: u < |after.tokens| && after.tokens[u].candidate == c ==> !CanConfirm(after, u, later)
  {
    var t, i := |s.tokens|, |s.outbox|;
    var begun := Step(s, cfg, InitiateConfirmation(c, now));
    InitiateKeeps(s, cfg, c, now);
    assert begun.tokens[t] == Token(c, s.cards[c].email.value, now + cfg.tokenLife, Alive);
    assert begun.outbox[i] == Message(c, Email, Letter(t), Queued) && |begun.outbox| == i + 1;
    var claimed := Step(begun, cfg, Claim(i));
    assert MayGo(claimed, cfg, claimed.outbox[i], sent, Mailbox(s.cards[c].email.value));
    SendsExactly(claimed, cfg, i, sent);
    var lettered := Step(claimed, cfg, Send(i, sent));
    assert CanConfirm(lettered, t, clicked);
    SupersedeKeeps(lettered.tokens[t := lettered.tokens[t].(state := Confirmed)], c);
  }

  // ---------------------------------------------------------------- what each event does

  /** What a channel looks like, state by state. */
  lemma ChannelStateMeans(card: Card, consent: Option<Consent>, link: Option<Link>, cfg: Config, invited: bool)
    ensures
      var connected := link.Some? && link.value.chat.Some?;
      var refused := consent.Some? && !consent.value.granted;
      var state := StateOf(card, consent, link, Telegram, cfg, invited);
      && (state == Forbidden <==> cfg.telegram && ((connected && link.value.revoked) || refused))
      && (state == Pending <==> cfg.telegram && !refused && if connected then !link.value.revoked && consent.None? else invited)
      && (state == TemporarilyUnavailable <==>
            cfg.telegram && connected && !link.value.revoked && consent.Some? && !refused && link.value.failing)
      && (state == Allowed <==> cfg.telegram && connected && !link.value.revoked && consent.Some? && !refused && !link.value.failing)
    ensures
      var refused := consent.Some? && !consent.value.granted;
      var covers := consent.Some? && consent.value.granted && consent.value.source == EmailConfirm && consent.value.address == card.email;
      var state := StateOf(card, consent, link, Email, cfg, invited);
      && (state == Forbidden <==> cfg.email && card.email.Some? && refused)
      && (state == Pending <==> cfg.email && card.email.Some? && !refused && !covers)
      && (state == Allowed <==> cfg.email && card.email.Some? && covers)
      && state != TemporarilyUnavailable
  {
  }

  /** The queued rows of a candidate's channel are cancelled, and no other row changes. */
  ghost predicate ChannelCancelled(before: seq<Message>, after: seq<Message>, c: int, channel: Channel) {
    && |after| == |before|
    && forall i :: 0 <= i < |before| ==>
         if before[i].candidate == c && before[i].channel == channel && before[i].status == Queued
         then after[i] == Message(c, channel, before[i].kind, Cancelled) else after[i] == before[i]
  }

  /** A decision by the HR: a refusal of any channel, or a grant of Telegram; a grant of email changes nothing. */
  lemma DecisionDoes(s: System, cfg: Config, c: int, channel: Channel, granted: bool)
    ensures var after := Step(s, cfg, HrDecides(c, channel, granted));
            if c !in s.cards || s.cards[c].deleted || (channel == Email && granted) then after == s
            else
              && after == s.(consents := after.consents, outbox := after.outbox)
              && after.consents == s.consents[(c, channel) :=
                   Consent(granted, HrRecorded, if channel == Email then s.cards[c].email else None)]
              && if granted then after.outbox == s.outbox else ChannelCancelled(s.outbox, after.outbox, c, channel)
  {
  }

  /** A start of the bot connects its chat, and grants Telegram only where nothing was decided before. */
  lemma StartDoes(s: System, cfg: Config, c: int, chat: int)
    requires c in s.cards && !s.cards[c].deleted
    ensures Step(s, cfg, ConnectTelegram(c, chat)) ==
      s.(links := s.links[c := Link(Some(chat), false, false)],
         consents := if (c, Telegram) in s.consents then s.consents
                     else s.consents[(c, Telegram) := Consent(true, TelegramStart, None)])
  {
  }

  /** An unlink revokes the binding and cancels what is queued, and leaves the consent alone. */
  lemma UnlinkDoes(s: System, cfg: Config, c: int)
    ensures var after := Step(s, cfg, UnlinkTelegram(c));
            && after == s.(links := after.links, outbox := after.outbox) && ChannelCancelled(s.outbox, after.outbox, c, Telegram)
            && after.links.Keys == s.links.Keys
            && forall d :: d in s.links ==> after.links[d] == if d == c then s.links[d].(revoked := true) else s.links[d]
  {
  }

  /** A temporary provider error closes Telegram for new messages while it stands, and changes nothing else. */
  lemma ProviderFailureDoes(s: System, cfg: Config, c: int)
    ensures var after := Step(s, cfg, ProviderFails(c));
            && after == s.(links := after.links) && after.links.Keys == s.links.Keys
            && (c in s.links ==> after.links[c] == Link(s.links[c].chat, s.links[c].revoked, true))
            && (forall d :: d in s.links && d != c ==> after.links[d] == s.links[d])
            && (c in s.cards ==> !Usable(after, cfg, c, Telegram))
  {
  }

  /** How a row moves, and that only a row in the right status does. */
  lemma RowMoves(s: System, cfg: Config, i: nat, accepted: bool)
    requires i < |s.outbox|
    ensures var m := s.outbox[i];
            && Step(s, cfg, Claim(i)) == (if m.status == Queued then s.(outbox := s.outbox[i := m.(status := Sending)]) else s)
            && Step(s, cfg, Requeue(i)) == (if m.status == Sending then s.(outbox := s.outbox[i := m.(status := Queued)]) else s)
            && Step(s, cfg, Finalise(i, accepted)) ==
                 if m.status == Sending then s.(outbox := s.outbox[i := m.(status := if accepted then Sent else Failed)]) else s
  {
  }

  /** The live links of a candidate end, but for one, and with them the queued letters that carry them. */
  ghost predicate LinksEnded(s: System, after: System, c: int, but: int) {
    && |s.tokens| <= |after.tokens| && |s.outbox| <= |after.outbox|
    && (forall u :: 0 <= u < |s.tokens| && u != but ==>
          after.tokens[u] == if s.tokens[u].candidate == c && s.tokens[u].state == Alive
                             then s.tokens[u].(state := Superseded) else s.tokens[u])
    && forall i :: 0 <= i < |s.outbox| ==>
         var m := s.outbox[i];
         var ended := m.status == Queued && m.kind.Letter? && m.kind.token < |s.tokens| && m.kind.token != but
                      && s.tokens[m.kind.token].candidate == c && s.tokens[m.kind.token].state == Alive;
         after.outbox[i] == if ended then m.(status := Cancelled) else m
  }

  /** Asking for a confirmation ends the earlier links and their letters, and queues a letter with a new one. */
  lemma InitiationDoes(s: System, cfg: Config, c: int, now: int)
    ensures var after := Step(s, cfg, InitiateConfirmation(c, now));
            if c !in s.cards || s.cards[c].deleted || !cfg.email || s.cards[c].email.None? then after == s
            else
              && after == s.(tokens := after.tokens, outbox := after.outbox) && LinksEnded(s, after, c, -1)
              && after.tokens[|s.tokens|..] == [Token(c, s.cards[c].email.value, now + cfg.tokenLife, Alive)]
              && after.outbox[|s.outbox|..] == [Message(c, Email, Letter(|s.tokens|), Queued)]
  {
  }

  /**
    A click counts exactly for a live link, not yet expired, to the present address of a present
    candidate. It confirms that address, uses the link up, and ends the candidate's other links.
   */
  lemma ClickDoes(s: System, cfg: Config, t: nat, now: int)
    ensures var after := Step(s, cfg, ClickLink(t, now));
            if t < |s.tokens| && s.tokens[t].state == Alive && now < s.tokens[t].expires
               && s.tokens[t].candidate in s.cards && !s.cards[s.tokens[t].candidate].deleted
               && s.cards[s.tokens[t].candidate].email == Some(s.tokens[t].address) then
              var c := s.tokens[t].candidate;
              && after == s.(tokens := after.tokens, outbox := after.outbox, consents := after.consents)
              && after.consents == s.consents[(c, Email) := Consent(true, EmailConfirm, Some(s.tokens[t].address))]
              && |after.tokens| == |s.tokens| && |after.outbox| == |s.outbox|
              && after.tokens[t] == s.tokens[t].(state := Confirmed) && LinksEnded(s, after, c, t)
            else after == s
  {
  }

  lemma RunSnoc(cfg: Config, events: seq<Event>, e: Event)
    ensures Run(cfg, events + [e]) == Step(Run(cfg, events), cfg, e)
  {
    assert (events + [e])[..|events|] == events;
  }

  lemma RunTwo(cfg: Config, events: seq<Event>, a: Event, b: Event)
    ensures Run(cfg, events + [a]) == Step(Run(cfg, events), cfg, a)
    ensures Run(cfg, events + [a, b]) == Step(Run(cfg, events + [a]), cfg, b)
  {
    RunSnoc(cfg, events, a);
    assert events + [a, b] == events + [a] + [b];
    RunSnoc(cfg, events + [a], b);
  }

  lemma RunFour(cfg: Config, events: seq<Event>, a: Event, b: Event, c: Event, d: Event)
    ensures Run(cfg, events + [a, b, c, d]) == Step(Step(Step(Step(Run(cfg, events), cfg, a), cfg, b), cfg, c), cfg, d)
  {
    RunTwo(cfg, events, a, b);
    RunTwo(cfg, events + [a, b], c, d);
    assert events + [a, b, c, d] == (events + [a, b]) + [c, d];
  }

  /** After any run, a letter and the click on its link make the card's address one that can be written to. */
  lemma ConfirmedAfterAnyRun(cfg: Config, events: seq<Event>, c: int, now: int, sent: int, clicked: int)
    requires var s := Run(cfg, events); c in s.cards && !s.cards[c].deleted && s.cards[c].email.Some? && cfg.email
    requires sent < now + cfg.tokenLife && clicked < now + cfg.tokenLife
    ensures var s := Run(cfg, events);
            var i := |s.outbox|;
            var after := Run(cfg, events + [InitiateConfirmation(c, now), Claim(i), Send(i, sent), ClickLink(|s.tokens|, clicked)]);
            && after.consents == s.consents[(c, Email) := Consent(true, EmailConfirm, s.cards[c].email)]
            && c in after.cards && Usable(after, cfg, c, Email)
  {
    var s := Run(cfg, events);
    var i := |s.outbox|;
    RunFour(cfg, events, InitiateConfirmation(c, now), Claim(i), Send(i, sent), ClickLink(|s.tokens|, clicked));
    RunKeeps(cfg, events);
    LetterThenClick(s, cfg, c, now, sent, clicked);
  }

  /** A card as entered. */
  lemma CardDoes(cfg: Config, events: seq<Event>, c: int, card: Card)
    ensures Run(cfg, events + [SetCard(c, card)]) == Run(cfg, events).(cards := Run(cfg, events).cards[c := card])
  {
    RunSnoc(cfg, events, SetCard(c, card));
  }
}
