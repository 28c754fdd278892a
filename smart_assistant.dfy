/** The coach chat (src/pages/SmartAssistant.tsx): an append-only message
    log that opens with a welcome message; each send appends the user's
    message and, once its timer fires, one reply drawn from a fixed pool.
    The timer becomes two steps (`Send`, then `DeliverReply`); the clock
    readings behind the ids, the formatted timestamps and `Math.random()`
    are parameters. */
module SmartAssistant {
  import opened Text

  /** The `sender` union; "assistant" is declared but never produced. */
  datatype Sender = UserSender | Coach | AssistantSender

  datatype Message = Message(id: string, content: string, sender: Sender, timestamp: string)

  const WelcomeText: string :=
    "Bienvenue! Je suis Coach Karim, votre conseiller carrière intelligent. \U{1F3AF}\n\n"
    + "Je suis spécialisé dans le marché de l'emploi marocain et je peux vous aider avec:\n\n"
    + "\U{2022} Conseils personnalisés pour votre parcours\n"
    + "\U{2022} Recherche d'offres adaptées à votre profil\n"
    + "\U{2022} Préparation aux entretiens\n"
    + "\U{2022} Stratégies de négociation salariale\n\n"
    + "Comment puis-je vous aider aujourd'hui?"

  /** The transcript the page starts with: the welcome message, id "1",
      from the coach, stamped when the module loads. */
  function InitialMessages(loadStamp: string): (ms: seq<Message>)
    ensures |ms| == 1 && ms[0].sender == Coach && ms[0].content == WelcomeText && ms[0].id == "1"
  {
    [Message("1", WelcomeText, Coach, loadStamp)]
  }

  const Reply1: string :=
    "Excellente question! Pour le marché marocain, je vous recommande de mettre en avant vos compétences "
    + "techniques et votre capacité d'adaptation. Les entreprises casablancaises recherchent particulièrement "
    + "des profils polyvalents."
  const Reply2: string :=
    "D'après mon analyse du marché actuel, les secteurs IT, fintech et e-commerce sont en forte croissance "
    + "au Maroc. Votre profil serait très adapté pour ces opportunités."
  const Reply3: string :=
    "Je comprends votre situation. Pour maximiser vos chances, je vous suggère de:\n\n"
    + "1. Personnaliser votre CV pour chaque candidature\n2. Utiliser notre outil d'optimisation ATS\n"
    + "3. Développer votre réseau sur LinkedIn Maroc\n\nVoulez-vous que je vous aide avec l'un de ces points?"
  const Reply4: string :=
    "Le salaire moyen pour ce type de poste à Casablanca se situe entre 12,000 et 18,000 MAD selon "
    + "l'expérience. Je vous conseille de négocier en mettant en avant vos certifications et projets concrets."

  /** The reply pool. */
  const CoachResponses: seq<string> := [Reply1, Reply2, Reply3, Reply4]

  /** `Math.floor(r * coachResponses.length)` for a `Math.random()` draw
      `r` in [0, 1): always a valid index into the pool. */
  function ReplyIndex(r: real): (k: nat)
    requires 0.0 <= r < 1.0
    ensures k < |CoachResponses|
    ensures k as real <= r * 4.0 < k as real + 1.0
  {
    (r * 4.0).Floor
  }

  /** Each of the four replies is drawn for a quarter of the range of
      `Math.random()`. */
  lemma EveryReplyReachable(k: nat)
    requires k < |CoachResponses|
    ensures ReplyIndex(k as real / 4.0) == k
  {
  }

  /** The number of messages from `s`. */
  function Count(ms: seq<Message>, s: Sender): (n: nat)
    ensures n <= |ms|
  {
    if |ms| == 0 then 0
    else Count(ms[..|ms| - 1], s) + (if ms[|ms| - 1].sender == s then 1 else 0)
  }

  /** Appending one message adds one to its sender's count and nothing to
      the others. */
  lemma CountAppend(ms: seq<Message>, m: Message, s: Sender)
    ensures Count(ms + [m], s) == Count(ms, s) + (if m.sender == s then 1 else 0)
  {
    assert (ms + [m])[..|ms|] == ms;
  }

  /** The chat's state. `pending` counts the replies whose timer has not
      fired: the page does not itself block a send while the coach is
      typing. */
  class Transcript {
    var messages: seq<Message>
    var isTyping: bool
    var pending: nat

    ghost predicate Valid()
      reads this
    {
      && |messages| >= 1
      && messages[0].id == "1" && messages[0].sender == Coach && messages[0].content == WelcomeText
      && (forall k :: 0 <= k < |messages| ==> messages[k].sender != AssistantSender)
      && (forall k :: 1 <= k < |messages| && messages[k].sender == Coach ==> messages[k].content in CoachResponses)
      && Count(messages, UserSender) == Count(messages, Coach) - 1 + pending
      && (isTyping ==> pending > 0)
    }

    constructor(loadStamp: string)
      ensures Valid()
      ensures messages == InitialMessages(loadStamp) && !isTyping && pending == 0
    {
      messages := InitialMessages(loadStamp);
      isTyping := false;
      pending := 0;
    }

    /** `handleSendMessage` up to its `await`: the user's text, verbatim,
        is appended with the id `Date.now().toString()`, and the typing
        indicator turns on. */
    method Send(content: string, now: nat, stamp: string)
      requires Valid()
      modifies this
      ensures Valid()
      ensures messages == old(messages) + [Message(NatToString(now), content, UserSender, stamp)]
      ensures isTyping && pending == old(pending) + 1
    {
      CountAppend(messages, Message(NatToString(now), content, UserSender, stamp), UserSender);
      CountAppend(messages, Message(NatToString(now), content, UserSender, stamp), Coach);
      messages := messages + [Message(NatToString(now), content, UserSender, stamp)];
      isTyping := true;
      pending := pending + 1;
    }

    /** The rest of `handleSendMessage` when a timer fires: a coach reply
        drawn with `r` is appended with the id `(Date.now() + 1).toString()`,
        and the typing indicator turns off. */
    method DeliverReply(r: real, now: nat, stamp: string)
      requires Valid() && pending > 0 && 0.0 <= r < 1.0
      modifies this
      ensures Valid()
      ensures messages == old(messages) + [Message(NatToString(now + 1), CoachResponses[ReplyIndex(r)], Coach, stamp)]
      ensures !isTyping && pending == old(pending) - 1
    {
      var reply := Message(NatToString(now + 1), CoachResponses[ReplyIndex(r)], Coach, stamp);
      CountAppend(messages, reply, UserSender);
      CountAppend(messages, reply, Coach);
      messages := messages + [reply];
      isTyping := false;
      pending := pending - 1;
    }

    /** One send answered before the next: the log grows by exactly two
        messages, the user's then the coach's, and nothing before them
        changes. */
    method Exchange(content: string, sentAt: nat, sentStamp: string, r: real, repliedAt: nat, replyStamp: string)
      requires Valid() && 0.0 <= r < 1.0
      modifies this
      ensures Valid()
      ensures |messages| == |old(messages)| + 2
      ensures messages[..|old(messages)|] == old(messages)
      ensures messages[|old(messages)|].sender == UserSender && messages[|old(messages)|].content == content
      ensures messages[|old(messages)| + 1].sender == Coach
      ensures messages[|old(messages)| + 1].content in CoachResponses
      ensures !isTyping && pending == old(pending)
    {
      Send(content, sentAt, sentStamp);
      DeliverReply(r, repliedAt, replyStamp);
    }
  }

  /** In a valid transcript the coach has spoken at least once, and every
      user message is answered or awaiting its reply: the user count is
      the coach count minus the welcome, plus the replies owed. */
  lemma RepliesOwed(ms: seq<Message>, pending: nat)
    requires |ms| >= 1 && ms[0].sender == Coach
    requires Count(ms, UserSender) == Count(ms, Coach) - 1 + pending
    ensures Count(ms, Coach) >= 1
    ensures pending == 0 ==> Count(ms, UserSender) + 1 == Count(ms, Coach)
  {
    CountFirst(ms, Coach);
  }

  /** A log whose first message is from `s` counts at least one message
      from `s`. */
  lemma {:induction false} CountFirst(ms: seq<Message>, s: Sender)
    requires |ms| >= 1 && ms[0].sender == s
    ensures Count(ms, s) >= 1
    decreases |ms|
  {
    if |ms| > 1 {
      CountFirst(ms[..|ms| - 1], s);
    }
  }
}
