/** The chat page of streamlit_app.py: language detection, translation,
    and the reply the page picks for a prompt (greeting first, then
    negotiation on a selected product, then retrieval), appended to the
    session's message list after the prompt itself. The text literals keep
    the characters the page's source holds, which are the UTF-8 bytes of
    its emoji read as Windows-1252. */
module Chat {
  import opened Text
  import opened Catalog
  import opened Negotiation
  import opened Security
  import opened Retrieval

  // ---------------------------------------------------------------------
  // detect_language and translate_text
  // ---------------------------------------------------------------------

  /** A character of the Unicode Telugu block. */
  predicate IsTelugu(c: char)
  {
    '\U{0C00}' <= c <= '\U{0C7F}'
  }

  /** Some character of the text lies in the Telugu block. */
  function HasTelugu(text: string): (b: bool)
    ensures b <==> exists i :: 0 <= i < |text| && IsTelugu(text[i])
  {
    if text == [] then false
    else if IsTelugu(text[0]) then true
    else
      var b := HasTelugu(text[1..]);
      assert forall i :: 1 <= i < |text| ==> text[i] == text[1..][i - 1];
      b
  }

  /** `detect_language`: "te" when a Telugu character occurs, else "en". */
  function DetectLanguage(text: string): (r: string)
    ensures r == "te" || r == "en"
    ensures r == "te" <==> exists i :: 0 <= i < |text| && IsTelugu(text[i])
  {
    if HasTelugu(text) then "te" else "en"
  }

  /** Text is Telugu as soon as either part of it is. */
  lemma DetectLanguageAppend(a: string, b: string)
    ensures DetectLanguage(a + b) == "te" <==> DetectLanguage(a) == "te" || DetectLanguage(b) == "te"
  {
    if DetectLanguage(a) == "te" {
      var i :| 0 <= i < |a| && IsTelugu(a[i]);
      assert (a + b)[i] == a[i];
    }
    if DetectLanguage(b) == "te" {
      var i :| 0 <= i < |b| && IsTelugu(b[i]);
      assert (a + b)[|a| + i] == b[i];
    }
    if DetectLanguage(a + b) == "te" {
      var i :| 0 <= i < |a + b| && IsTelugu((a + b)[i]);
      if i < |a| { assert a[i] == (a + b)[i]; } else { assert b[i - |a|] == (a + b)[i]; }
    }
  }

  /** `translate_text`, with the translation service as a parameter that
      gives None when it raises: the text comes back unchanged when the two
      languages are the same or the service fails. */
  function TranslateText(text: string, src: string, dest: string,
                         translator: (string, string, string) -> Option<string>): (r: string)
    ensures src == dest ==> r == text
    ensures translator(text, src, dest).None? ==> r == text
    ensures r != text ==> src != dest && translator(text, src, dest) == Some(r)
  {
    if src == dest then text
    else
      match translator(text, src, dest)
      case Some(t) => t
      case None => text
  }

  // ---------------------------------------------------------------------
  // The reply to one prompt
  // ---------------------------------------------------------------------

  /** "Kiki Bot 🤖: " as the page's source spells it. */
  const Robot: string := "Kiki Bot \U{F0}\U{178}\U{A4}\U{2013}: "

  /** The page's own greeting words. */
  const ChatGreetings: seq<string> :=
    ["hi", "hello", "hey", "good morning", "good evening", "hai", "namaste"]

  /** The page's own negotiation words. */
  const ChatKeywords: seq<string> :=
    ["discount", "offer", "cheap", "less", "taggesthava", "reduce", "price", "negotiate", "nego"]

  const NotReachable: string := "Sorry, AI not reachable right now. Error: "

  const CannotReduce: string :=
    Robot + "Stock chala takkuva \U{F0}\U{178}\U{2DC}\U{AC} \U{E2}\U{20AC}\U{201D} cannot reduce price."

  const ChatProductNotFound: string := Robot + "Product not found."

  /** The greeting reply, addressed to the whole email address. */
  function ChatGreeting(email: string): (r: string)
    ensures |r| > |Robot| + 4 + |email|
    ensures r[..|Robot| + 4 + |email|] == Robot + "Hey " + email
  {
    Robot + "Hey " + email + "! \U{F0}\U{178}\U{2018}\U{2039} Ela unna? Nenu miku help chestha."
  }

  /** `int(product["stock"] or 0)`: a NULL stock counts as 0. */
  function StockOrZero(p: Product): int
  {
    match p.stock
    case None => 0
    case Some(s) => s
  }

  /** The negotiation reply for the looked-up product: the page's own copy
      of the tier rule, with its own wording. */
  function NegotiationReply(product: Option<Product>): (r: string)
    ensures product.None? ==> r == ChatProductNotFound
    ensures product.Some? && StockOrZero(product.value) <= 5 ==> r == CannotReduce
    ensures |r| > |Robot| && r[..|Robot|] == Robot
  {
    match product
    case None => ChatProductNotFound
    case Some(p) =>
      var stock := StockOrZero(p);
      if stock > 15 then
        Robot + "Stock baaga undi \U{F0}\U{178}\U{2DC}\U{201E} \U{E2}\U{20AC}\U{201D} I can give \U{E2}\U{201A}\U{B9}"
        + FloatText(RoundShare(p.price, 90)) + " final."
      else if 5 < stock <= 15 then
        Robot + "Stock limited \U{F0}\U{178}\U{2DC}\U{2026} \U{E2}\U{20AC}\U{201D} ok \U{E2}\U{201A}\U{B9}"
        + FloatText(RoundShare(p.price, 95)) + " final."
      else CannotReduce
  }

  /** What the page reaches besides the prompt: the products table, the
      environment, the embedding model, the stored-embedding parser, the
      similarity measure, the provider call, and the text of an exception
      raised while answering (None when nothing raises). */
  datatype Backend = Backend(
    table: seq<Product>,
    env: Env,
    embed: string -> Vector,
    parse: string -> Option<Vector>,
    angle: (Vector, Vector) -> real,
    call: LlmCall,
    failure: Option<string>)

  /** `use_llm`: some provider key is set. */
  predicate UseLlm(env: Env)
  {
    exists i :: 0 <= i < |LlmProviders| && KeySet(env, LlmProviders[i].1)
  }

  /** The dictionary the retrieval call returns, `k` being 3. */
  function RagOut(prompt: string, b: Backend): map<string, string>
  {
    var base := RagAnswerText(prompt, 3, b.embed, b.table, b.parse, b.angle);
    if UseLlm(b.env) then ProviderChain(LlmProviders, b.env, b.call, base, prompt)
    else map["answer" := base]
  }

  /** The reply built from that dictionary; a dictionary with neither key
      would raise `KeyError('answer')`, which the handler reports. */
  function RagReply(ragOut: map<string, string>): string
  {
    if "error" in ragOut then Robot + ragOut["error"]
    else if "answer" in ragOut then ragOut["answer"]
    else Robot + NotReachable + "'answer'"
  }

  /** The retrieval branch. */
  function RetrievalReply(prompt: string, b: Backend): string
  {
    match b.failure
    case Some(e) => Robot + NotReachable + e
    case None => RagReply(RagOut(prompt, b))
  }

  /** A product is selected: `product_id` is truthy (not None and not 0). */
  predicate Selected(productId: Option<int>)
  {
    productId.Some? && productId.value != 0
  }

  /** The reply the page gives to `prompt`: a message of the bot, or the
      retrieval answer passed on unchanged. */
  function ChatReply(prompt: string, productId: Option<int>, email: string, b: Backend): (r: string)
    ensures (|r| >= |Robot| && r[..|Robot|] == Robot)
            || (b.failure.None? && "error" !in RagOut(prompt, b) && "answer" in RagOut(prompt, b)
                && r == RagOut(prompt, b)["answer"])
  {
    var lm := Lower(prompt);
    if ContainsAny(lm, ChatGreetings) then
      var g := ChatGreeting(email);
      assert g[..|Robot|] == g[..|Robot| + 4 + |email|][..|Robot|];
      g
    else if Selected(productId) && ContainsAny(lm, ChatKeywords) then
      NegotiationReply(FindProduct(b.table, productId.value))
    else RetrievalReply(prompt, b)
  }

  /** The branches in their order: a greeting word wins whatever product is
      selected and whatever the backend holds; negotiation needs both a
      selected product and a negotiation word; everything else goes to
      retrieval. */
  lemma ChatBranches(prompt: string, productId: Option<int>, email: string, b: Backend,
                     productId2: Option<int>, b2: Backend)
    ensures ContainsAny(Lower(prompt), ChatGreetings) ==>
              ChatReply(prompt, productId, email, b) == ChatGreeting(email)
              == ChatReply(prompt, productId2, email, b2)
    ensures !ContainsAny(Lower(prompt), ChatGreetings) && Selected(productId) && ContainsAny(Lower(prompt), ChatKeywords)
            ==> ChatReply(prompt, productId, email, b) == NegotiationReply(FindProduct(b.table, productId.value))
    ensures !ContainsAny(Lower(prompt), ChatGreetings) && !(Selected(productId) && ContainsAny(Lower(prompt), ChatKeywords))
            ==> ChatReply(prompt, productId, email, b) == RetrievalReply(prompt, b)
  {
  }

  /** The page's tier rule agrees with `calculate_offer` on the stock it
      reads: it offers the service's offer price exactly when the service
      would negotiate, and refuses otherwise. */
  lemma ChatTierAgreesWithOffer(p: Product)
    ensures var o := CalculateOffer(p.price, StockOrZero(p));
            o.canNegotiate <==> NegotiationReply(Some(p)) != CannotReduce
    ensures var o := CalculateOffer(p.price, StockOrZero(p));
            o.canNegotiate ==>
              (NegotiationReply(Some(p)) ==
                 Robot
                 + (if o.discountPercent == 10
                    then "Stock baaga undi \U{F0}\U{178}\U{2DC}\U{201E} \U{E2}\U{20AC}\U{201D} I can give \U{E2}\U{201A}\U{B9}"
                    else "Stock limited \U{F0}\U{178}\U{2DC}\U{2026} \U{E2}\U{20AC}\U{201D} ok \U{E2}\U{201A}\U{B9}")
                 + FloatText(o.offerPrice) + " final.")
  {
    OfferTiers(p.price, StockOrZero(p));
    var s := StockOrZero(p);
    if s > 5 {
      assert NegotiationReply(Some(p)) != CannotReduce by {
        var r := NegotiationReply(Some(p));
        assert r[|r| - 2] == 'l';
        assert CannotReduce[|CannotReduce| - 2] == 'e';
      }
    }
  }

  /** The page's words are a subset of the service's: whatever the page
      treats as a greeting or a negotiation request, the service does too. */
  lemma ChatWordsInService(m: string)
    ensures ContainsAny(Lower(m), ChatGreetings) ==> IsGreeting(m)
    ensures ContainsAny(Lower(m), ChatKeywords) ==> IsNegotiationRequest(m)
  {
    if ContainsAny(Lower(m), ChatGreetings) {
      var j :| 0 <= j < |ChatGreetings| && Contains(Lower(m), ChatGreetings[j]);
      assert ChatGreetings[j] == Greetings[j];
    }
    if ContainsAny(Lower(m), ChatKeywords) {
      var j :| 0 <= j < |ChatKeywords| && Contains(Lower(m), ChatKeywords[j]);
      var k := if j < 4 then j else if j == 4 then 10 else j - 1;
      assert ChatKeywords[j] == NegotiationKeywords[k];
    }
  }

  /** The page's list lacks "deal" and "bargain": a message the service
      reads as a negotiation request goes to retrieval on the page. */
  lemma ChatIgnoresDeal(m: string)
    requires m == "deal"
    ensures IsNegotiationRequest(m)
    ensures !ContainsAny(Lower(m), ChatKeywords)
  {
    assert Lower(m) == m;
    assert Lower(m) == NegotiationKeywords[9];
    NegotiationKeywordAnywhere("", m, "");
    assert "" + m + "" == m;
    forall j | 0 <= j < |ChatKeywords| ensures !Contains(m, ChatKeywords[j]) {
      var w := ChatKeywords[j];
      if |w| == 4 {
        assert m[..4] == m && w != m;
        assert m[1..] == "eal";
      }
    }
  }

  /** With no provider key the page shows the plain retrieval answer (or
      the exception), never an error dictionary. */
  lemma NoKeysPlainAnswer(prompt: string, b: Backend)
    requires !UseLlm(b.env) && b.failure.None?
    ensures RetrievalReply(prompt, b) == RagAnswerText(prompt, 3, b.embed, b.table, b.parse, b.angle)
  {
  }

  /** With a key set, the page shows the first provider's answer, or the
      fixed error after the robot prefix when no provider answers. */
  lemma KeysProviderAnswer(prompt: string, b: Backend)
    requires UseLlm(b.env) && b.failure.None?
    ensures var base := RagAnswerText(prompt, 3, b.embed, b.table, b.parse, b.angle);
            (forall i :: 0 <= i < |LlmProviders| ==> !Answers(b.env, b.call, base, prompt, LlmProviders[i]))
            ==> RetrievalReply(prompt, b) == Robot + LlmError
    ensures var base := RagAnswerText(prompt, 3, b.embed, b.table, b.parse, b.angle);
            (exists i :: 0 <= i < |LlmProviders| && Answers(b.env, b.call, base, prompt, LlmProviders[i]))
            ==> exists i :: 0 <= i < |LlmProviders| && Answers(b.env, b.call, base, prompt, LlmProviders[i])
                            && RetrievalReply(prompt, b)
                               == b.call(LlmProviders[i].0, b.env[LlmProviders[i].1], base, prompt).value
                            && forall j :: 0 <= j < i ==> !Answers(b.env, b.call, base, prompt, LlmProviders[j])
  {
    var base := RagAnswerText(prompt, 3, b.embed, b.table, b.parse, b.angle);
    ProviderChainSpec(LlmProviders, b.env, b.call, base, prompt);
    var r := ProviderChain(LlmProviders, b.env, b.call, base, prompt);
    if r != map["error" := LlmError] {
      assert "error" !in r && "answer" in r;
    }
  }

  /** `use_llm` holds exactly when the configured provider list is not empty. */
  lemma {:induction false} UseLlmIffConfigured(env: Env, candidates: seq<(string, string)>)
    ensures ConfiguredProviders(env, candidates) != [] <==>
              exists i :: 0 <= i < |candidates| && KeySet(env, candidates[i].1)
  {
    if candidates != [] {
      UseLlmIffConfigured(env, candidates[1..]);
      if exists i :: 0 <= i < |candidates| && KeySet(env, candidates[i].1) {
        var i :| 0 <= i < |candidates| && KeySet(env, candidates[i].1);
        if i > 0 { assert candidates[1..][i - 1] == candidates[i]; }
      }
      if exists i :: 0 <= i < |candidates[1..]| && KeySet(env, candidates[1..][i].1) {
        var i :| 0 <= i < |candidates[1..]| && KeySet(env, candidates[1..][i].1);
        assert candidates[i + 1] == candidates[1..][i];
      }
    }
  }

  // ---------------------------------------------------------------------
  // The session
  // ---------------------------------------------------------------------

  /** An entry of `st.session_state.messages`. */
  datatype Message = Message(role: string, content: string)

  class ChatSession {
    var messages: seq<Message>

    constructor ()
      ensures messages == []
    {
      messages := [];
    }

    /** One prompt: the user's entry, then the reply picked by the branch
        chain, is appended to the session. An empty prompt is falsy and
        leaves the session as it was. */
    method HandlePrompt(prompt: string, productId: Option<int>, email: string, b: Backend)
      modifies this
      ensures prompt == "" ==> messages == old(messages)
      ensures prompt != "" ==>
                messages == old(messages)
                            + [Message("user", prompt), Message("assistant", ChatReply(prompt, productId, email, b))]
    {
      if prompt == "" {
        return;
      }
      messages := messages + [Message("user", prompt)];
      var lm := Lower(prompt);
      var response: string;
      if ContainsAny(lm, ChatGreetings) {
        response := ChatGreeting(email);
      } else if Selected(productId) && ContainsAny(lm, ChatKeywords) {
        var product := FindProduct(b.table, productId.value);
        response := NegotiationReply(product);
      } else if b.failure.Some? {
        response := Robot + NotReachable + b.failure.value;
      } else {
        var ragOut: map<string, string>;
        if UseLlm(b.env) {
          ragOut := RagAnswerWithLlm(prompt, 3, true, b.embed, b.table, b.parse, b.angle, b.env, b.call);
        } else {
          ragOut := RagAnswer(prompt, 3, b.embed, b.table, b.parse, b.angle);
        }
        if "error" in ragOut {
          response := Robot + ragOut["error"];
        } else if "answer" in ragOut {
          response := ragOut["answer"];
        } else {
          response := Robot + NotReachable + "'answer'";
        }
      }
      messages := messages + [Message("assistant", response)];
    }
  }
}
