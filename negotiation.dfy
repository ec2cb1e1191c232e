/** `NegotiationService` of backend/conversation_service.py: the
    stock-tiered offer, the keyword classifiers for negotiation requests and
    greetings, and the two reply builders. */
module Negotiation {
  import opened Text
  import opened Catalog

  /** The dictionary `calculate_offer` returns. Prices are whole paise. */
  datatype Offer = Offer(
    originalPrice: int,
    offerPrice: int,
    discountPercent: int,
    message: string,
    canNegotiate: bool)

  /** `round(price * pct / 100, 2)` on a price in paise, rounding half up. */
  function RoundShare(price: int, pct: nat): (r: int)
    ensures -50 <= 100 * r - price * pct <= 50
  {
    (2 * price * pct + 100) / 200
  }

  /** The rounded share never exceeds the price it is taken from. */
  lemma RoundShareAtMost(price: int, pct: nat)
    requires pct <= 100
    ensures price >= 0 ==> 0 <= RoundShare(price, pct) <= price
  {
    if price >= 0 {
      assert 2 * price * pct <= 200 * price by {
        assert price * pct <= price * 100;
      }
    }
  }

  /** A larger share never gives a smaller rounded amount. */
  lemma RoundShareMonotone(price: int, pct1: nat, pct2: nat)
    requires price >= 0 && pct1 <= pct2
    ensures RoundShare(price, pct1) <= RoundShare(price, pct2)
  {
    assert price * pct1 <= price * pct2;
  }

  /** `NegotiationService.calculate_offer`: more than 15 in stock gives 10%
      off, 6 to 15 gives 5% off, anything else (zero and negative stock
      included) no discount. */
  function CalculateOffer(price: int, stock: int): (o: Offer)
    ensures o.originalPrice == price
    ensures o.discountPercent in {0, 5, 10}
    ensures o.canNegotiate <==> o.discountPercent > 0
    ensures o.canNegotiate <==> stock > 5
    ensures -50 <= 100 * o.offerPrice - price * (100 - o.discountPercent) <= 50
    ensures o.discountPercent == 0 ==> o.offerPrice == price
    ensures price >= 0 ==> 0 <= o.offerPrice <= o.originalPrice
    ensures o.discountPercent == 10 ==>
              o.message == "Great stock available! I can offer \U{20B9}" + FloatText(o.offerPrice)
                           + " (10% off the MRP of \U{20B9}" + FloatText(price) + ")"
    ensures o.discountPercent == 5 ==>
              o.message == "Limited stock available. I can offer \U{20B9}" + FloatText(o.offerPrice)
                           + " (5% off the MRP of \U{20B9}" + FloatText(price) + ")"
    ensures o.discountPercent == 0 ==>
              o.message == "Very limited stock. Best price: \U{20B9}" + FloatText(price) + " (MRP)"
  {
    RoundShareAtMost(price, 90);
    RoundShareAtMost(price, 95);
    if stock > 15 then
      var offer := RoundShare(price, 90);
      Offer(price, offer, 10,
            "Great stock available! I can offer \U{20B9}" + FloatText(offer)
            + " (10% off the MRP of \U{20B9}" + FloatText(price) + ")",
            true)
    else if 5 < stock <= 15 then
      var offer := RoundShare(price, 95);
      Offer(price, offer, 5,
            "Limited stock available. I can offer \U{20B9}" + FloatText(offer)
            + " (5% off the MRP of \U{20B9}" + FloatText(price) + ")",
            true)
    else
      Offer(price, price, 0,
            "Very limited stock. Best price: \U{20B9}" + FloatText(price) + " (MRP)",
            false)
  }

  /** The three stock tiers, each with its fixed rate. */
  lemma OfferTiers(price: int, stock: int)
    ensures stock > 15 ==>
              CalculateOffer(price, stock).offerPrice == RoundShare(price, 90) &&
              CalculateOffer(price, stock).discountPercent == 10
    ensures 5 < stock <= 15 ==>
              CalculateOffer(price, stock).offerPrice == RoundShare(price, 95) &&
              CalculateOffer(price, stock).discountPercent == 5
    ensures stock <= 5 ==>
              CalculateOffer(price, stock).offerPrice == price &&
              CalculateOffer(price, stock).discountPercent == 0
  {
  }

  /** More stock never means a smaller discount, nor (for a non-negative
      price) a higher offer price. */
  lemma OfferMonotoneInStock(price: int, s1: int, s2: int)
    requires s1 <= s2
    ensures CalculateOffer(price, s1).discountPercent <= CalculateOffer(price, s2).discountPercent
    ensures price >= 0 ==> CalculateOffer(price, s2).offerPrice <= CalculateOffer(price, s1).offerPrice
  {
    if price >= 0 {
      RoundShareMonotone(price, 90, 95);
      RoundShareAtMost(price, 95);
    }
  }

  const NegotiationKeywords: seq<string> :=
    ["discount", "offer", "cheap", "less", "reduce", "price",
     "negotiate", "nego", "bargain", "deal", "taggesthava"]

  const Greetings: seq<string> :=
    ["hi", "hello", "hey", "good morning", "good evening",
     "hai", "namaste", "vanakkam", "good afternoon"]

  /** `NegotiationService.is_negotiation_request`: a keyword occurs anywhere
      in the lower-cased message. */
  function IsNegotiationRequest(message: string): (b: bool)
    ensures b <==> OccursAny(Lower(message), NegotiationKeywords)
  {
    ContainsAnyIff(Lower(message), NegotiationKeywords);
    ContainsAny(Lower(message), NegotiationKeywords)
  }

  /** `NegotiationService.is_greeting`: a greeting occurs anywhere in the
      lower-cased message. */
  function IsGreeting(message: string): (b: bool)
    ensures b <==> OccursAny(Lower(message), Greetings)
  {
    ContainsAnyIff(Lower(message), Greetings);
    ContainsAny(Lower(message), Greetings)
  }

  /** A word spliced into any text is found, in lower case, by the
      lower-cased search. */
  lemma KeywordSpliced(pre: string, word: string, post: string)
    ensures Contains(Lower(pre + word + post), Lower(word))
  {
    LowerAppend(pre + word, post);
    LowerAppend(pre, word);
    ContainsSpliced(Lower(pre), Lower(word), Lower(post));
  }

  /** A negotiation keyword, written in any mix of cases, anywhere in a
      message makes it a negotiation request. */
  lemma NegotiationKeywordAnywhere(pre: string, word: string, post: string)
    requires Lower(word) in NegotiationKeywords
    ensures IsNegotiationRequest(pre + word + post)
  {
    KeywordSpliced(pre, word, post);
  }

  /** A greeting, written in any mix of cases, anywhere in a message makes
      it a greeting. */
  lemma GreetingAnywhere(pre: string, word: string, post: string)
    requires Lower(word) in Greetings
    ensures IsGreeting(pre + word + post)
  {
    KeywordSpliced(pre, word, post);
  }

  /** Plain substring matching: "this" and "SHIP" are greetings because of
      "hi", and "less" inside "useless" asks for a discount. */
  lemma SubstringFalsePositives()
    ensures IsGreeting("this") && IsGreeting("SHIP")
    ensures IsNegotiationRequest("that was useless")
  {
    assert Lower("hi") == Greetings[0];
    GreetingAnywhere("t", "hi", "s");
    assert "t" + "hi" + "s" == "this";
    assert Lower("HI") == Greetings[0];
    GreetingAnywhere("S", "HI", "P");
    assert "S" + "HI" + "P" == "SHIP";
    assert Lower("less") == NegotiationKeywords[3];
    NegotiationKeywordAnywhere("that was use", "less", "");
    assert "that was use" + "less" + "" == "that was useless";
  }

  /** `user_email.split('@')[0]`: the text before the first '@', or the
      whole address when there is none. */
  function UserName(email: string): (r: string)
    ensures '@' !in r
    ensures |r| <= |email| && r == email[..|r|]
    ensures |r| < |email| ==> email[|r|] == '@'
  {
    if email == [] || email[0] == '@' then [] else [email[0]] + UserName(email[1..])
  }

  /** `NegotiationService.generate_greeting_response`. */
  function GenerateGreetingResponse(email: string): (r: string)
    ensures exists n :: LocalPart(email, n) && r == "Hey " + n + "! \U{1F44B} How can I help you with our products today?"
  {
    var n := UserName(email);
    assert LocalPart(email, n);
    "Hey " + n + "! \U{1F44B} How can I help you with our products today?"
  }

  /** `n` is what comes before the first '@' of `email`, or all of it. */
  predicate LocalPart(email: string, n: string)
  {
    '@' !in n && |n| <= |email| && n == email[..|n|] && (|n| < |email| ==> email[|n|] == '@')
  }

  /** The greeting addresses the local part of the address, and the whole
      text when it has no '@'. */
  lemma {:induction false} GreetingUsesLocalPart(local: string, domain: string)
    requires '@' !in local
    ensures UserName(local + "@" + domain) == local
    ensures UserName(local) == local
    ensures GenerateGreetingResponse(local + "@" + domain)
              == "Hey " + local + "! \U{1F44B} How can I help you with our products today?"
  {
    if local != [] {
      assert (local + "@" + domain)[1..] == local[1..] + "@" + domain;
      GreetingUsesLocalPart(local[1..], domain);
    }
  }

  const ProductNotFoundReply: string := "Sorry, I couldn't find that product."

  /** What `int(None)` raises, as `str(e)` renders it. */
  const IntOfNoneError: string :=
    "int() argument must be a string, a bytes-like object or a real number, not 'NoneType'"

  /** `NegotiationService.process_negotiation_request`, given the result of
      the product lookup. A NULL stock makes `int()` raise, which the
      handler turns into an apology carrying the error text. */
  function ProcessNegotiationRequest(product: Option<Product>): (r: string)
    ensures product.None? ==> r == ProductNotFoundReply
    ensures product.Some? && product.value.stock.Some? ==>
              r == "Kiki Bot \U{1F916}: " + CalculateOffer(product.value.price, product.value.stock.value).message
    ensures product.Some? && product.value.stock.None? ==>
              r == "Kiki Bot \U{1F916}: Sorry, I encountered an error while processing your request: " + IntOfNoneError
  {
    match product
    case None => ProductNotFoundReply
    case Some(p) =>
      match p.stock
      case None => "Kiki Bot \U{1F916}: Sorry, I encountered an error while processing your request: " + IntOfNoneError
      case Some(s) => "Kiki Bot \U{1F916}: " + CalculateOffer(p.price, s).message
  }
}
