/**
 * The static knowledge store behind the agents' tools: the FAQ table with its
 * keyword search, the order table with its lookup, and the action logger's reply.
 */
module Knowledge {
  import opened Wrappers
  import opened Text

  datatype FaqEntry = FaqEntry(key: string, answer: string)

  const ShippingAnswer := "Standard shipping takes 3-5 business days. Express shipping takes 1-2 business days."
  const ReturnsAnswer := "You can return items within 30 days of purchase. Items must be unused and in original packaging."
  const PaymentAnswer := "We accept credit cards, debit cards, and PayPal."
  const TrackingAnswer := "You can track your order using the tracking number sent to your email."

  /** The FAQ table in its insertion order, which is the order the search scans it. */
  const FaqTable: seq<FaqEntry> := [
    FaqEntry("shipping", ShippingAnswer),
    FaqEntry("returns", ReturnsAnswer),
    FaqEntry("payment", PaymentAnswer),
    FaqEntry("tracking", TrackingAnswer)
  ]

  const FaqPrefix := "FAQ Answer: "
  const NoFaqMatch := "No FAQ match found. This may require further research or escalation."

  /** Index `j` holds the first key of `table` that occurs in `q`. */
  ghost predicate IsFirstMatch(table: seq<FaqEntry>, q: string, j: int) {
    && 0 <= j < |table|
    && Contains(q, table[j].key)
    && forall k :: 0 <= k < j ==> !Contains(q, table[k].key)
  }

  /** The scan over `table[from..]` for the first key occurring in `q`. */
  function FirstMatchFrom(table: seq<FaqEntry>, q: string, from: nat): (r: Option<nat>)
    requires from <= |table|
    requires forall k :: 0 <= k < from ==> !Contains(q, table[k].key)
    ensures r.Some? ==> IsFirstMatch(table, q, r.value)
    ensures r.None? <==> forall k :: 0 <= k < |table| ==> !Contains(q, table[k].key)
    decreases |table| - from
  {
    if from == |table| then None
    else if Contains(q, table[from].key) then Some(from)
    else FirstMatchFrom(table, q, from + 1)
  }

  /** `FAQSearchTool._run`: "return" anywhere wins and answers without the prefix;
      otherwise the first table key found in the lower-cased query answers with the
      prefix; otherwise the no-match sentinel. */
  function SearchFaq(query: string): (r: string)
    ensures r == ReturnsAnswer || r == NoFaqMatch || exists j :: 0 <= j < |FaqTable| && r == FaqPrefix + FaqTable[j].answer
    ensures Contains(Lower(query), "return") ==> r == ReturnsAnswer
    ensures !Contains(Lower(query), "return") ==>
      forall j :: IsFirstMatch(FaqTable, Lower(query), j) ==> r == FaqPrefix + FaqTable[j].answer
    ensures r == NoFaqMatch <==>
      !Contains(Lower(query), "return") && forall k :: 0 <= k < |FaqTable| ==> !Contains(Lower(query), FaqTable[k].key)
  {
    var q := Lower(query);
    if Contains(q, "return") then
      assert ReturnsAnswer != NoFaqMatch;
      ReturnsAnswer
    else
      match FirstMatchFrom(FaqTable, q, 0)
      case Some(j) =>
        assert FaqPrefix + FaqTable[j].answer != NoFaqMatch;
        FaqPrefix + FaqTable[j].answer
      case None => NoFaqMatch
  }

  /** The "returns" row is never reached by the table scan: any query containing
      "returns" contains "return" and takes the special case first. */
  lemma ReturnsRowUnreachable(query: string)
    ensures SearchFaq(query) != FaqPrefix + ReturnsAnswer
  {
    var q := Lower(query);
    if !Contains(q, "return") {
      if Contains(q, "returns") {
        ContainsPrefixOf(q, "returns", "return");
      }
      assert !IsFirstMatch(FaqTable, q, 1);
    }
  }

  /** Table order decides: a query naming shipping gets the shipping answer, even when it
      also names payment or tracking. */
  lemma ShippingFirst(query: string)
    requires Contains(Lower(query), "shipping") && !Contains(Lower(query), "return")
    ensures SearchFaq(query) == FaqPrefix + ShippingAnswer
  {
    assert IsFirstMatch(FaqTable, Lower(query), 0);
  }

  /** Any query with "return" in it gets the returns answer verbatim, without the prefix. */
  lemma ReturnAnywhere(a: string, b: string)
    ensures SearchFaq(a + "return" + b) == ReturnsAnswer
  {
    LowerConcat(a + "return", b);
    LowerConcat(a, "return");
    assert Lower("return") == "return";
    ContainsInfix(Lower(a), "return", Lower(b));
  }

  /** A query shorter than every key matches nothing. */
  lemma NoMatchExample()
    ensures SearchFaq("xyz") == NoFaqMatch
  {
    assert |Lower("xyz")| == 3;
    assert forall k :: 0 <= k < |FaqTable| ==> |FaqTable[k].key| > 3;
  }

  /** One row of the order table; a falsy (absent or empty) tracking value is not shown. */
  datatype OrderRecord = OrderRecord(status: string, tracking: Option<string>, eta: string)

  const OrderTable: map<string, OrderRecord> := map[
    "12345" := OrderRecord("Shipped", Some("TRK123456789"), "Jan 31, 2026"),
    "67890" := OrderRecord("Processing", None, "Feb 2, 2026")
  ]

  /** Python truthiness of the optional tracking value: present and non-empty. */
  predicate HasTracking(o: OrderRecord) {
    o.tracking.Some? && o.tracking.value != ""
  }

  const NotFoundTail := " not found in system. Please verify the order number or suggest customer contact support."

  /** `OrderLookupTool._run`: an exact-key lookup, rendered as a status line or the
      not-found sentinel; both start with the queried number. */
  function LookupOrder(orderNumber: string): (r: string)
    ensures "Order #" + orderNumber <= r
    ensures orderNumber !in OrderTable <==> r == "Order #" + orderNumber + NotFoundTail
    ensures orderNumber in OrderTable ==>
      var o := OrderTable[orderNumber];
      var line := "Order #" + orderNumber + " - Status: " + o.status + ", ETA: " + o.eta;
      && line <= r
      && (HasTracking(o) ==> r == line + ", Tracking: " + o.tracking.value)
      && (!HasTracking(o) ==> r == line)
  {
    if orderNumber in OrderTable then
      var o := OrderTable[orderNumber];
      var line := "Order #" + orderNumber + " - Status: " + o.status + ", ETA: " + o.eta;
      if HasTracking(o) then line + ", Tracking: " + o.tracking.value else line
    else
      "Order #" + orderNumber + NotFoundTail
  }

  /** The stored order with tracking shows its status, ETA and tracking number. */
  lemma LookupShippedOrder()
    ensures LookupOrder("12345")
      == "Order #" + "12345" + " - Status: " + "Shipped" + ", ETA: " + "Jan 31, 2026" + ", Tracking: " + "TRK123456789"
    ensures Contains(LookupOrder("12345"), "TRK123456789")
  {
    var o := OrderTable["12345"];
    assert o == OrderRecord("Shipped", Some("TRK123456789"), "Jan 31, 2026");
    assert HasTracking(o);
    ContainsInfix("Order #" + "12345" + " - Status: " + "Shipped" + ", ETA: " + "Jan 31, 2026" + ", Tracking: ", "TRK123456789", "");
    assert LookupOrder("12345") + "" == LookupOrder("12345");
  }

  /** The stored order without tracking ends at its ETA: no tracking segment. */
  lemma LookupProcessingOrder()
    ensures LookupOrder("67890") == "Order #" + "67890" + " - Status: " + "Processing" + ", ETA: " + "Feb 2, 2026"
  {
    assert "67890" != "12345";
    var o := OrderTable["67890"];
    assert o == OrderRecord("Processing", None, "Feb 2, 2026");
    assert !HasTracking(o);
  }

  /** A number absent from the table gets the not-found sentinel naming it. */
  lemma LookupMissingOrder()
    ensures LookupOrder("00000") == "Order #00000" + NotFoundTail
  {
    assert "00000" != "12345" && "00000" != "67890";
    assert "00000" !in OrderTable;
  }

  const ActionLoggedPrefix := "Action logged successfully: "

  /** The reply of `ActionLoggerTool._run`: a confirmation naming the action type; the
      details only reach the development log. */
  function LogAction(actionType: string, details: string): (r: string)
    ensures ActionLoggedPrefix <= r
    ensures r[|ActionLoggedPrefix|..] == actionType
  {
    ActionLoggedPrefix + actionType
  }

  /** The confirmation does not depend on the details and identifies the action type. */
  lemma LogActionIgnoresDetails(a1: string, a2: string, d1: string, d2: string)
    ensures LogAction(a1, d1) == LogAction(a2, d2) <==> a1 == a2
  {
    if LogAction(a1, d1) == LogAction(a2, d2) {
      assert a1 == LogAction(a1, d1)[|ActionLoggedPrefix|..];
    }
  }
}
