/**
 * The offline assistant of the support page: the keyword matcher
 * `findResponse` and the page's message list.
 *
 * Replies are named by the rule that produced them (`Intent`) instead of
 * carrying the canned Spanish texts.
 */
module Support {
  import opened Common
  import opened Text
  import opened Collections
  import opened Schema

  // ----- normalisation: toLowerCase, NFD, removal of U+0300..U+036F -----

  /** A combining diacritical mark, the block the page's regular expression removes. */
  predicate IsMark(c: char)
  {
    '\U{0300}' <= c <= '\U{036F}'
  }

  /**
   * The canonical decomposition (Unicode Standard Annex #15) of one
   * character, for the lower-case letters of the Latin-1 Supplement that
   * have one; every other character is its own decomposition.
   */
  function Decompose(c: char): seq<char>
  {
    if c < '\U{00E0}' then [c]
    else if c == '\U{00E0}' then ['a', '\U{0300}']
    else if c == '\U{00E1}' then ['a', '\U{0301}']
    else if c == '\U{00E2}' then ['a', '\U{0302}']
    else if c == '\U{00E3}' then ['a', '\U{0303}']
    else if c == '\U{00E4}' then ['a', '\U{0308}']
    else if c == '\U{00E5}' then ['a', '\U{030A}']
    else if c == '\U{00E7}' then ['c', '\U{0327}']
    else if c == '\U{00E8}' then ['e', '\U{0300}']
    else if c == '\U{00E9}' then ['e', '\U{0301}']
    else if c == '\U{00EA}' then ['e', '\U{0302}']
    else if c == '\U{00EB}' then ['e', '\U{0308}']
    else if c == '\U{00EC}' then ['i', '\U{0300}']
    else if c == '\U{00ED}' then ['i', '\U{0301}']
    else if c == '\U{00EE}' then ['i', '\U{0302}']
    else if c == '\U{00EF}' then ['i', '\U{0308}']
    else if c == '\U{00F1}' then ['n', '\U{0303}']
    else if c == '\U{00F2}' then ['o', '\U{0300}']
    else if c == '\U{00F3}' then ['o', '\U{0301}']
    else if c == '\U{00F4}' then ['o', '\U{0302}']
    else if c == '\U{00F5}' then ['o', '\U{0303}']
    else if c == '\U{00F6}' then ['o', '\U{0308}']
    else if c == '\U{00F9}' then ['u', '\U{0300}']
    else if c == '\U{00FA}' then ['u', '\U{0301}']
    else if c == '\U{00FB}' then ['u', '\U{0302}']
    else if c == '\U{00FC}' then ['u', '\U{0308}']
    else if c == '\U{00FD}' then ['y', '\U{0301}']
    else if c == '\U{00FF}' then ['y', '\U{0308}']
    else [c]
  }

  /** A decomposed letter is an ASCII lower-case base letter followed by one mark. */
  lemma DecomposeShape(c: char)
    ensures Decompose(c) == [c] || (|Decompose(c)| == 2 && 'a' <= Decompose(c)[0] <= 'z' && IsMark(Decompose(c)[1]))
    ensures c < '\U{0080}' ==> Decompose(c) == [c]
  {
  }

  /** `normalize("NFD")`, character by character. */
  function Nfd(s: string): string
  {
    if s == [] then [] else Decompose(s[0]) + Nfd(s[1..])
  }

  /** `replace(/[̀-ͯ]/g, "")`: every mark dropped, everything else kept in order. */
  function StripMarks(s: string): (r: string)
    ensures |r| <= |s|
    ensures forall i :: 0 <= i < |r| ==> !IsMark(r[i]) && r[i] in s
    ensures forall i :: 0 <= i < |s| && !IsMark(s[i]) ==> s[i] in r
  {
    if s == [] then [] else (if IsMark(s[0]) then [] else [s[0]]) + StripMarks(s[1..])
  }

  /** The text the rules are matched against. */
  function Normalize(message: string): string
  {
    StripMarks(Nfd(Lower(message)))
  }

  /** A character normalisation leaves alone. */
  predicate Fixed(c: char)
  {
    LowerChar(c) == c && Decompose(c) == [c] && !IsMark(c)
  }

  ghost predicate AllFixed(s: string)
  {
    forall i :: 0 <= i < |s| ==> Fixed(s[i])
  }

  ghost predicate FixedOrMark(s: string)
  {
    forall i :: 0 <= i < |s| ==> Fixed(s[i]) || IsMark(s[i])
  }

  lemma {:induction false} NfdOfLowered(v: string)
    requires forall i :: 0 <= i < |v| ==> LowerChar(v[i]) == v[i]
    ensures FixedOrMark(Nfd(v))
  {
    if v != [] {
      NfdOfLowered(v[1..]);
      DecomposeShape(v[0]);
      var d := Decompose(v[0]);
      assert FixedOrMark(d);
      var rest := Nfd(v[1..]);
      assert forall i :: 0 <= i < |rest| ==> (d + rest)[|d| + i] == rest[i];
    }
  }

  /** Normalised text contains no marks, no upper-case letters and no decomposable letters. */
  lemma NormalizeFixedChars(message: string)
    ensures AllFixed(Normalize(message))
  {
    var v := Lower(message);
    forall i | 0 <= i < |v| ensures LowerChar(v[i]) == v[i] {
      LowerCharIdempotent(message[i]);
    }
    NfdOfLowered(v);
    var u := Nfd(v);
    var r := StripMarks(u);
    forall i | 0 <= i < |r| ensures Fixed(r[i]) {
      var j :| 0 <= j < |u| && u[j] == r[i];
    }
  }

  lemma {:induction false} NfdOfFixed(t: string)
    requires AllFixed(t)
    ensures Nfd(t) == t
  {
    if t != [] {
      NfdOfFixed(t[1..]);
      assert t == [t[0]] + t[1..];
    }
  }

  lemma {:induction false} StripOfFixed(t: string)
    requires AllFixed(t)
    ensures StripMarks(t) == t
  {
    if t != [] {
      StripOfFixed(t[1..]);
      assert t == [t[0]] + t[1..];
    }
  }

  /** Text made only of characters normalisation leaves alone comes out unchanged. */
  lemma NormalizeOfFixed(t: string)
    requires AllFixed(t)
    ensures Normalize(t) == t
  {
    assert Lower(t) == t;
    NfdOfFixed(t);
    StripOfFixed(t);
  }

  /** Normalising twice is normalising once. */
  lemma NormalizeIdempotent(message: string)
    ensures Normalize(Normalize(message)) == Normalize(message)
  {
    NormalizeFixedChars(message);
    NormalizeOfFixed(Normalize(message));
  }

  // ----- the rules -----

  /** Which canned reply the page gives. */
  datatype Intent =
    | Greeting | Pricing | ServiceList | Hours | ContactInfo | TicketHelp | PaymentInfo | Security
    | Emergency | Plans | About | Thanks | Goodbye | RemoteSupport | ServerAdmin
    | Default

  datatype Rule = Rule(keywords: seq<string>, intent: Intent)

  /** The `responses` list, in declaration order. */
  const Rules: seq<Rule> := [
    Rule(["hola", "hi", "hello", "buenos", "buenas", "saludos", "hey"], Greeting),
    Rule(["precio", "costo", "cuanto", "tarifa", "cobran", "vale", "rate"], Pricing),
    Rule(["servicio", "servicios", "ofrecen", "hacen", "pueden", "service"], ServiceList),
    Rule(["horario", "hora", "atienden", "abierto", "disponible", "hours"], Hours),
    Rule(["contacto", "contactar", "llamar", "telefono", "email", "correo", "contact"], ContactInfo),
    Rule(["ticket", "problema", "ayuda", "soporte", "error", "falla", "no funciona", "issue", "help"], TicketHelp),
    Rule(["pago", "pagar", "factura", "stripe", "tarjeta", "metodo", "payment", "invoice"], PaymentInfo),
    Rule(["seguridad", "hipaa", "fedramp", "cjis", "cumplimiento", "compliance", "security"], Security),
    Rule(["emergencia", "urgente", "caido", "offline", "critico", "emergency", "down"], Emergency),
    Rule(["plan", "planes", "suscripcion", "mensual", "contratar", "subscription"], Plans),
    Rule(["quien", "empresa", "about", "sobre", "ustedes", "pedro"], About),
    Rule(["gracias", "thanks", "thank", "genial", "excelente", "perfecto", "great"], Thanks),
    Rule(["adios", "bye", "chao", "hasta luego", "nos vemos", "goodbye"], Goodbye),
    Rule(["remoto", "remote", "distancia", "online"], RemoteSupport),
    Rule(["servidor", "server", "hosting", "cloud", "nube"], ServerAdmin)
  ]

  /** Some keyword of the rule occurs in the text. */
  predicate Matches(text: string, rule: Rule)
  {
    exists j :: 0 <= j < |rule.keywords| && Contains(text, rule.keywords[j])
  }

  /** Each rule has its own reply, and none of them is the default one. */
  lemma RulesDistinct()
    ensures |Rules| == 15
    ensures forall i :: 0 <= i < |Rules| ==> Rules[i].intent != Default
    ensures forall i, j :: 0 <= i < j < |Rules| ==> Rules[i].intent != Rules[j].intent
  {
  }

  /** `findResponse`: the reply of the first rule with a keyword in the normalised message, else the default. */
  function FindResponse(message: string): Intent
  {
    var text := Normalize(message);
    match FindIndex(Rules, rule => Matches(text, rule))
    case None => Default
    case Some(i) => Rules[i].intent
  }

  /** The default reply comes exactly when no rule matches; any other reply is that of the first matching rule. */
  lemma FindResponseSpec(message: string)
    ensures FindResponse(message) == Default <==> forall i :: 0 <= i < |Rules| ==> !Matches(Normalize(message), Rules[i])
    ensures FindResponse(message) != Default ==>
      exists i :: (0 <= i < |Rules| && FindResponse(message) == Rules[i].intent
        && Matches(Normalize(message), Rules[i])
        && forall j :: 0 <= j < i ==> !Matches(Normalize(message), Rules[j]))
  {
    RulesDistinct();
  }

  /** The reply is that of rule i exactly when rule i matches and no earlier rule does. */
  lemma FirstMatchWins(message: string, i: nat)
    requires i < |Rules|
    ensures FindResponse(message) == Rules[i].intent <==>
      Matches(Normalize(message), Rules[i]) && forall j :: 0 <= j < i ==> !Matches(Normalize(message), Rules[j])
  {
    RulesDistinct();
    FindResponseSpec(message);
    var r := FindResponse(message);
    if r == Rules[i].intent {
      var k :| 0 <= k < |Rules| && r == Rules[k].intent
        && Matches(Normalize(message), Rules[k]) && forall j :: 0 <= j < k ==> !Matches(Normalize(message), Rules[j]);
      assert k == i;
    }
    if Matches(Normalize(message), Rules[i]) && forall j :: 0 <= j < i ==> !Matches(Normalize(message), Rules[j]) {
      var k :| 0 <= k < |Rules| && r == Rules[k].intent
        && Matches(Normalize(message), Rules[k]) && forall j :: 0 <= j < k ==> !Matches(Normalize(message), Rules[j]);
      assert k == i;
    }
  }

  /** Matching an already normalised message gives the same reply. */
  lemma FindResponseOfNormalized(message: string)
    ensures FindResponse(Normalize(message)) == FindResponse(message)
  {
    NormalizeIdempotent(message);
  }

  /** Any message mentioning HIPAA gets the greeting: "hi" is a block of "hipaa" and its rule comes first. */
  lemma HipaaIsShadowed(message: string)
    requires Contains(Normalize(message), "hipaa")
    ensures FindResponse(message) == Greeting
  {
    var text := Normalize(message);
    assert Contains("hipaa", "hi") by {
      assert "hipaa"[..2] == "hi";
    }
    ContainsTrans(text, "hipaa", "hi");
    assert Rules[0].keywords[1] == "hi";
    assert Matches(text, Rules[0]);
    FirstMatchWins(message, 0);
  }

  /** Plain ASCII without capitals is left alone by normalisation. */
  lemma AsciiFixed(c: char)
    requires c < '\U{0080}' && !('A' <= c <= 'Z')
    ensures Fixed(c)
  {
  }

  /** A text without 'h', 'b' and 'd' matches no greeting keyword. */
  lemma NoGreeting(text: string)
    requires 'h' !in text && 'b' !in text && 'd' !in text
    ensures !Matches(text, Rules[0])
  {
    var greet := Rules[0].keywords;
    forall j | 0 <= j < |greet| ensures !Contains(text, greet[j]) {
      if j == 6 {
        MissingChar(text, greet[j], 0);
      } else if j == 3 || j == 4 {
        MissingChar(text, greet[j], 0);
      } else if j == 5 {
        assert greet[j][4] == 'd';
        MissingChar(text, greet[j], 4);
      } else {
        MissingChar(text, greet[j], 0);
      }
    }
  }

  /**
   * Any message whose normalised text mentions "cuanto" and has no 'h',
   * 'b' or 'd' is answered with prices: no greeting keyword can occur.
   */
  lemma CuantoIsPricing(message: string)
    requires 'h' !in Normalize(message) && 'b' !in Normalize(message) && 'd' !in Normalize(message)
    requires Contains(Normalize(message), "cuanto")
    ensures FindResponse(message) == Pricing
  {
    var t := Normalize(message);
    NoGreeting(t);
    assert Rules[1].keywords[2] == "cuanto";
    assert Matches(t, Rules[1]);
    FirstMatchWins(message, 1);
  }

  /** A question about the price of remote support, written in plain lower case. */
  const PriceQuestion := "cuanto cuesta el soporte remoto"

  /** It is its own normalisation. */
  lemma PriceQuestionNormal()
    ensures Normalize(PriceQuestion) == PriceQuestion
  {
    var m := PriceQuestion;
    forall i | 0 <= i < |m| ensures Fixed(m[i]) {
      AsciiFixed(m[i]);
    }
    NormalizeOfFixed(m);
  }

  /** It also mentions "soporte" and "remoto", keywords of later rules. */
  lemma PriceQuestionWords()
    ensures 'h' !in PriceQuestion && 'b' !in PriceQuestion && 'd' !in PriceQuestion
    ensures Contains(PriceQuestion, "cuanto")
    ensures OccursAt(PriceQuestion, "soporte", 17) && OccursAt(PriceQuestion, "remoto", 25)
  {
    var m := PriceQuestion;
    assert m[..6] == "cuanto";
    assert m[17..24] == "soporte";
    assert m[25..31] == "remoto";
  }

  /** The earlier pricing rule wins over the support and remote-support rules. */
  lemma RemoteSupportPriceQuestion()
    ensures FindResponse(PriceQuestion) == Pricing
  {
    PriceQuestionNormal();
    PriceQuestionWords();
    CuantoIsPricing(PriceQuestion);
  }

  // ----- the page state -----

  /** One bubble of the conversation, with the time it was created. */
  datatype Entry = UserEntry(content: string, at: Time) | AssistantEntry(reply: Intent, at: Time)

  /**
   * The support page: the conversation, the input box, the typing flag,
   * and the message whose delayed reply is still to come.
   */
  class SupportChat {
    var messages: seq<Entry>
    var input: string
    var isTyping: bool
    var pending: Option<string>

    /** A reply is on its way exactly while the typing indicator shows. */
    ghost predicate Valid()
      reads this
    {
      isTyping <==> pending.Some?
    }

    constructor ()
      ensures Valid()
      ensures messages == [] && input == "" && !isTyping
    {
      messages := [];
      input := "";
      isTyping := false;
      pending := None;
    }

    /** What the user types into the box. */
    method SetInput(text: string)
      modifies this`input
      ensures input == text
    {
      input := text;
    }

    /**
     * `handleSubmit`: ignored when the trimmed input is empty or a reply is
     * pending; otherwise the trimmed text is appended, the box cleared and
     * the reply scheduled.
     */
    method Submit(now: Time)
      requires Valid()
      modifies this
      ensures Valid()
      ensures Trim(old(input)) == "" || old(isTyping) ==>
        messages == old(messages) && input == old(input) && isTyping == old(isTyping) && pending == old(pending)
      ensures Trim(old(input)) != "" && !old(isTyping) ==>
        && messages == old(messages) + [UserEntry(Trim(old(input)), now)]
        && input == "" && isTyping && pending == Some(Trim(old(input)))
    {
      var text := Trim(input);
      if text == "" || isTyping {
        return;
      }
      messages := messages + [UserEntry(text, now)];
      input := "";
      isTyping := true;
      pending := Some(text);
    }

    /** The delayed callback: the reply to the pending text is appended and typing ends. */
    method DeliverReply(now: Time)
      requires Valid() && isTyping
      modifies this`messages, this`isTyping, this`pending
      ensures Valid() && !isTyping
      ensures messages == old(messages) + [AssistantEntry(FindResponse(old(pending).value), now)]
    {
      messages := messages + [AssistantEntry(FindResponse(pending.value), now)];
      isTyping := false;
      pending := None;
    }

    /**
     * `clearHistory`, with the answer to the confirmation dialog. A reply
     * already pending is not cancelled and lands in the cleared list.
     */
    method ClearHistory(confirmed: bool)
      modifies this`messages
      ensures messages == if confirmed then [] else old(messages)
    {
      if confirmed {
        messages := [];
      }
    }
  }
}
