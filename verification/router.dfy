/**
 * The fast rule-based query router: a message is an `order` query when it carries
 * a standalone five-digit number or the word "order" in any letter case, and an
 * `faq` query otherwise.
 */
module Router {
  import opened Text

  datatype Category = Order | Faq

  /** Regular-expression `\d`, over ASCII. */
  predicate IsDigit(c: char) {
    '0' <= c <= '9'
  }

  /** Regular-expression `\w`, over ASCII: letters, digits and underscore. */
  predicate IsWordChar(c: char) {
    IsDigit(c) || 'a' <= c <= 'z' || 'A' <= c <= 'Z' || c == '_'
  }

  /** `\b\d{5}\b` matches at position `i`: five digits with no word character on either side. */
  predicate NumberTokenAt(s: string, i: int) {
    && 0 <= i && i + 5 <= |s|
    && (forall k :: i <= k < i + 5 ==> IsDigit(s[k]))
    && (i == 0 || !IsWordChar(s[i - 1]))
    && (i + 5 == |s| || !IsWordChar(s[i + 5]))
  }

  /** Regular-expression search for `\b\d{5}\b`: the leftmost match position, if any. */
  method FindOrderNumber(s: string) returns (found: bool, at: int)
    ensures found <==> exists i :: NumberTokenAt(s, i)
    ensures found <==> HasOrderNumber(s)
    ensures found ==> NumberTokenAt(s, at) && forall j :: 0 <= j < at ==> !NumberTokenAt(s, j)
  {
    found, at := false, 0;
    while at + 5 <= |s|
      invariant 0 <= at
      invariant forall j :: 0 <= j < at ==> !NumberTokenAt(s, j)
    {
      if NumberTokenAt(s, at) {
        return true, at;
      }
      at := at + 1;
    }
    assert forall j :: at <= j ==> !NumberTokenAt(s, j);
  }

  /** `re.search(r'\b\d{5}\b', s)` finds a match. */
  predicate HasOrderNumber(s: string) {
    exists i | 0 <= i <= |s| - 5 :: NumberTokenAt(s, i)
  }

  /** The keyword list the router checks after the order signals. */
  const FaqKeywords: seq<string> := ["shipping", "return", "payment", "track", "policy", "refund"]

  /** The order signals, checked first: a number token or "order" in the lower-cased message. */
  predicate HasOrderSignal(message: string) {
    HasOrderNumber(message) || Contains(Lower(message), "order")
  }

  /** `route_query`, branch by branch: order signals first, then the FAQ keywords, then the default. */
  function Route(message: string): (c: Category)
    ensures c == Order <==> HasOrderSignal(message)
  {
    var lower := Lower(message);
    if HasOrderNumber(message) || Contains(lower, "order") then
      Order
    else if exists k | k in FaqKeywords :: Contains(lower, k) then
      Faq
    else
      Faq
  }

  /** A standalone five-digit number routes to `order`, whatever else the message says. */
  lemma NumberRoutesToOrder(message: string, i: int)
    requires NumberTokenAt(message, i)
    ensures Route(message) == Order
  {
  }

  /** "order" in any letter case routes to `order`, even beside FAQ keywords. */
  lemma OrderWordTakesPrecedence(a: string, word: string, b: string)
    requires Lower(word) == "order"
    ensures Route(a + word + b) == Order
  {
    var m := a + word + b;
    assert Lower(m) == Lower(a) + Lower(word) + Lower(b) by {
      LowerConcat(a, word);
      LowerConcat(a + word, b);
    }
    ContainsInfix(Lower(a), "order", Lower(b));
  }

  /** Without an order signal the route is `faq`, whether or not a FAQ keyword occurs:
      both remaining branches answer `faq`. */
  lemma NoOrderSignalRoutesToFaq(message: string)
    requires !HasOrderSignal(message)
    ensures Route(message) == Faq
  {
  }

  /** The empty message routes to `faq`. */
  lemma EmptyRoutesToFaq()
    ensures Route("") == Faq
  {
    assert !Contains(Lower(""), "order");
  }

  /** A message with both "order" and "shipping" is an order query. */
  lemma OrderBeatsShipping()
    ensures Route("What shipping options for my ORDER?") == Order
  {
    var a, w, b := "What shipping options for my ", "ORDER", "?";
    assert Lower(w) == "order";
    OrderWordTakesPrecedence(a, w, b);
    assert a + w + b == "What shipping options for my ORDER?";
  }

  /** "order" is matched as a substring, so a word merely containing it routes to `order`. */
  lemma SubstringOrderRoutesToOrder()
    ensures Route("Do you ship across the border?") == Order
  {
    var a, w, b := "Do you ship across the b", "order", "?";
    assert Lower(w) == "order";
    OrderWordTakesPrecedence(a, w, b);
    assert a + w + b == "Do you ship across the border?";
  }

  /** A number embedded in a longer run of word characters is not a token. */
  lemma LongNumberIsNoToken()
    ensures !HasOrderNumber("123456")
    ensures !HasOrderNumber("A12345")
    ensures HasOrderNumber("#12345.")
  {
    assert NumberTokenAt("#12345.", 1);
  }
}
