/** Turning the matches of the four patterns into one sorted list of hits. */
module Detection {
  import opened Redaction
  import Luhn
  import Sorting

  /** One match of a pattern, as byte offsets. */
  datatype Span = Span(start: int, end: int)

  /** What the four patterns match in a text. */
  datatype Matches = Matches(emails: seq<Span>, cards: seq<Span>, phones: seq<Span>, apiKeys: seq<Span>)

  predicate SpanIn(text: string, span: Span) {
    0 <= span.start < span.end <= |text|
  }

  ghost predicate SpansIn(text: string, spans: seq<Span>) {
    forall i :: 0 <= i < |spans| ==> SpanIn(text, spans[i])
  }

  ghost predicate MatchesIn(text: string, m: Matches) {
    SpansIn(text, m.emails) && SpansIn(text, m.cards) && SpansIn(text, m.phones) && SpansIn(text, m.apiKeys)
  }

  // ----- Card-like numbers --------------------------------------------------------

  function Digits(s: string): (digits: string)
    ensures Luhn.IsDigits(digits)
  {
    if s == "" then ""
    else
      var n := |s| - 1;
      Digits(s[..n]) + if Luhn.IsDigit(s[n]) then [s[n]] else ""
  }

  /** What is kept of a text: the characters 0 to 9, in order. */
  lemma {:induction false} DigitsJoin(a: string, b: string)
    ensures Digits(a + b) == Digits(a) + Digits(b)
    ensures forall c: char :: Digits([c]) == if 48 <= c as int <= 57 then [c] else ""
  {
    if b == "" {
      assert a + b == a;
    } else {
      var n := |b| - 1;
      assert (a + b)[..|a + b| - 1] == a + b[..n];
      DigitsJoin(a, b[..n]);
    }
    forall c: char ensures Digits([c]) == if 48 <= c as int <= 57 then [c] else "" {
      assert [c][..0] == "";
    }
  }

  method DigitsOnly(value: string) returns (result: string)
    ensures result == Digits(value)
  {
    result := "";
    for index := 0 to |value|
      invariant result == Digits(value[..index])
    {
      assert value[..index + 1][..index] == value[..index];
      if '0' <= value[index] && value[index] <= '9' {
        result := result + [value[index]];
      }
    }
    assert value[..|value|] == value;
  }

  /** 13 to 19 digits that pass the checksum. */
  ghost predicate CardLike(text: string, span: Span)
    requires SpanIn(text, span)
  {
    var digits := Digits(text[span.start..span.end]);
    13 <= |digits| <= 19 && Luhn.Valid(digits)
  }

  predicate Overlaps(hit: Hit, start: int, end: int) {
    start < hit.end && end > hit.start
  }

  ghost predicate OverlapsKind(hits: seq<Hit>, start: int, end: int, kind: Kind) {
    exists i :: 0 <= i < |hits| && hits[i].kind == kind && Overlaps(hits[i], start, end)
  }

  method OverlapsType(hits: seq<Hit>, start: int, end: int, kind: Kind) returns (overlaps: bool)
    ensures overlaps <==> OverlapsKind(hits, start, end, kind)
  {
    for n := 0 to |hits|
      invariant forall i :: 0 <= i < n && hits[i].kind == kind ==> !Overlaps(hits[i], start, end)
    {
      var hit := hits[n];
      if hit.kind != kind {
        continue;
      }
      if start < hit.end && end > hit.start {
        return true;
      }
    }
    return false;
  }

  // ----- Appending hits -----------------------------------------------------------

  /** The hits of one kind for the spans that qualify, in order. */
  ghost function Chosen(kind: Kind, spans: seq<Span>, qualifies: Span -> bool): seq<Hit> {
    if spans == [] then []
    else
      var last := spans[|spans| - 1];
      Chosen(kind, spans[..|spans| - 1], qualifies) + if qualifies(last) then [Hit(kind, last.start, last.end)] else []
  }

  lemma {:induction false} ChosenMeans(kind: Kind, spans: seq<Span>, qualifies: Span -> bool, h: Hit)
    ensures h in Chosen(kind, spans, qualifies) <==>
            h.kind == kind && Span(h.start, h.end) in spans && qualifies(Span(h.start, h.end))
  {
    if spans != [] {
      var n := |spans| - 1;
      ChosenMeans(kind, spans[..n], qualifies, h);
      assert spans == spans[..n] + [spans[n]];
    }
  }

  method AppendRegexHits(hits: seq<Hit>, kind: Kind, spans: seq<Span>) returns (more: seq<Hit>)
    ensures more == hits + Chosen(kind, spans, Always())
  {
    more := hits;
    for n := 0 to |spans|
      invariant more == hits + Chosen(kind, spans[..n], Always())
    {
      assert spans[..n + 1][..n] == spans[..n];
      more := more + [Hit(kind, spans[n].start, spans[n].end)];
    }
    assert spans[..|spans|] == spans;
  }

  method IsCardLike(text: string, span: Span) returns (cardLike: bool)
    requires SpanIn(text, span)
    ensures cardLike <==> CardLike(text, span)
  {
    var digits := DigitsOnly(text[span.start..span.end]);
    if |digits| < 13 || |digits| > 19 {
      return false;
    }
    cardLike := Luhn.LuhnValid(digits);
  }

  method AppendCreditCardHits(hits: seq<Hit>, text: string, spans: seq<Span>) returns (more: seq<Hit>)
    requires SpansIn(text, spans)
    ensures more == hits + Chosen(CreditCardLike, spans, IsCard(text))
  {
    more := hits;
    for n := 0 to |spans|
      invariant more == hits + Chosen(CreditCardLike, spans[..n], IsCard(text))
    {
      assert spans[..n + 1][..n] == spans[..n];
      var cardLike := IsCardLike(text, spans[n]);
      if !cardLike {
        continue;
      }
      more := more + [Hit(CreditCardLike, spans[n].start, spans[n].end)];
    }
    assert spans[..|spans|] == spans;
  }

  ghost function Always(): Span -> bool {
    (_: Span) => true
  }

  ghost function IsCard(text: string): Span -> bool {
    (span: Span) => SpanIn(text, span) && CardLike(text, span)
  }

  ghost function NoCardAt(hits: seq<Hit>): Span -> bool {
    (span: Span) => !OverlapsKind(hits, span.start, span.end, CreditCardLike)
  }

  method AppendPhoneHits(hits: seq<Hit>, spans: seq<Span>) returns (more: seq<Hit>)
    ensures more == hits + Chosen(Phone, spans, NoCardAt(hits))
  {
    more := hits;
    for n := 0 to |spans|
      invariant more == hits + Chosen(Phone, spans[..n], NoCardAt(hits))
    {
      assert spans[..n + 1][..n] == spans[..n];
      var overlaps := OverlapsType(more, spans[n].start, spans[n].end, CreditCardLike);
      PhonesHideNothing(hits, spans[..n], NoCardAt(hits), spans[n]);
      if overlaps {
        continue;
      }
      more := more + [Hit(Phone, spans[n].start, spans[n].end)];
    }
    assert spans[..|spans|] == spans;
  }

  /** The phone hits appended so far do not change which spans a card covers. */
  lemma PhonesHideNothing(hits: seq<Hit>, spans: seq<Span>, qualifies: Span -> bool, span: Span)
    ensures OverlapsKind(hits + Chosen(Phone, spans, qualifies), span.start, span.end, CreditCardLike)
            <==> OverlapsKind(hits, span.start, span.end, CreditCardLike)
  {
    var phones := Chosen(Phone, spans, qualifies);
    var more := hits + phones;
    if i :| 0 <= i < |hits| && hits[i].kind == CreditCardLike && Overlaps(hits[i], span.start, span.end) {
      assert more[i] == hits[i];
    }
    forall i | |hits| <= i < |more| ensures more[i].kind == Phone {
      ChosenMeans(Phone, spans, qualifies, phones[i - |hits|]);
    }
  }

  // ----- Detecting ----------------------------------------------------------------

  /** The order of the hits: by start, then by end. */
  predicate Before(a: Hit, b: Hit) {
    if a.start != b.start then a.start < b.start else a.end < b.end
  }

  /** The hits before they are sorted. */
  ghost function Unsorted(text: string, m: Matches): seq<Hit> {
    var emails := Chosen(Email, m.emails, Always());
    var withCards := emails + Chosen(CreditCardLike, m.cards, IsCard(text));
    withCards + Chosen(Phone, m.phones, NoCardAt(withCards)) + Chosen(ApiKeyLike, m.apiKeys, Always())
  }

  method Detect(text: string, m: Matches) returns (hits: seq<Hit>)
    requires MatchesIn(text, m)
    ensures hits == Sorting.StableSort(Before, Unsorted(text, m))
    ensures InOrder(hits) && InBounds(hits, |text|)
    ensures forall i, j :: 0 <= i < j < |hits| ==>
              hits[i].start < hits[j].start || (hits[i].start == hits[j].start && hits[i].end <= hits[j].end)
  {
    hits := AppendRegexHits([], Email, m.emails);
    assert hits == Chosen(Email, m.emails, Always());
    hits := AppendCreditCardHits(hits, text, m.cards);
    hits := AppendPhoneHits(hits, m.phones);
    hits := AppendRegexHits(hits, ApiKeyLike, m.apiKeys);
    assert hits == Unsorted(text, m);
    hits := Sorting.StableSort(Before, hits);
    DetectedInOrder(text, m);
  }

  /** When a hit is reported: every match counts, except cards that fail the checksum and phones on a reported card. */
  ghost predicate Reported(text: string, m: Matches, h: Hit) {
    var span := Span(h.start, h.end);
    match h.kind
    case Email => span in m.emails
    case ApiKeyLike => span in m.apiKeys
    case CreditCardLike => ReportedCard(text, m, span)
    case Phone => span in m.phones && forall card :: ReportedCard(text, m, card) ==> !(span.start < card.end && card.start < span.end)
  }

  ghost predicate ReportedCard(text: string, m: Matches, span: Span) {
    span in m.cards && SpanIn(text, span) && CardLike(text, span)
  }

  /** Exactly the hits that should be reported are, and hits on the same span keep the order of the detectors. */
  lemma DetectedExactly(text: string, m: Matches, h: Hit)
    ensures h in Sorting.StableSort(Before, Unsorted(text, m)) <==> Reported(text, m, h)
    ensures Sorting.Ties(Before, Sorting.StableSort(Before, Unsorted(text, m)), h) == Sorting.Ties(Before, Unsorted(text, m), h)
  {
    var all := Unsorted(text, m);
    BeforeStrict();
    Sorting.StableSortSorts(Before, all);
    Sorting.StableSortStable(Before, all, h);
    assert h in Sorting.StableSort(Before, all) <==> h in multiset(Sorting.StableSort(Before, all));
    assert h in all <==> h in multiset(all);
    UnsortedMeans(text, m, h);
  }

  lemma UnsortedMeans(text: string, m: Matches, h: Hit)
    ensures h in Unsorted(text, m) <==> Reported(text, m, h)
  {
    var emails := Chosen(Email, m.emails, Always());
    var withCards := emails + Chosen(CreditCardLike, m.cards, IsCard(text));
    ChosenMeans(Email, m.emails, Always(), h);
    ChosenMeans(CreditCardLike, m.cards, IsCard(text), h);
    ChosenMeans(Phone, m.phones, NoCardAt(withCards), h);
    ChosenMeans(ApiKeyLike, m.apiKeys, Always(), h);
    CardsAmong(text, m, Span(h.start, h.end));
  }

  lemma CardsAmong(text: string, m: Matches, span: Span)
    ensures var withCards := Chosen(Email, m.emails, Always()) + Chosen(CreditCardLike, m.cards, IsCard(text));
            OverlapsKind(withCards, span.start, span.end, CreditCardLike)
            <==> exists card :: ReportedCard(text, m, card) && span.start < card.end && card.start < span.end
  {
    var emails, cards := Chosen(Email, m.emails, Always()), Chosen(CreditCardLike, m.cards, IsCard(text));
    var withCards := emails + cards;
    if i :| 0 <= i < |withCards| && withCards[i].kind == CreditCardLike && Overlaps(withCards[i], span.start, span.end) {
      ChosenMeans(Email, m.emails, Always(), withCards[i]);
      ChosenMeans(CreditCardLike, m.cards, IsCard(text), withCards[i]);
      assert withCards[i] in emails || withCards[i] in cards;
      assert ReportedCard(text, m, Span(withCards[i].start, withCards[i].end));
    }
    if card :| ReportedCard(text, m, card) && span.start < card.end && card.start < span.end {
      var hit := Hit(CreditCardLike, card.start, card.end);
      ChosenMeans(CreditCardLike, m.cards, IsCard(text), hit);
      assert hit in withCards;
    }
  }

  lemma BeforeStrict()
    ensures Sorting.StrictWeak(Before)
  {
  }

  lemma DetectedInOrder(text: string, m: Matches)
    requires MatchesIn(text, m)
    ensures var hits := Sorting.StableSort(Before, Unsorted(text, m));
            && InOrder(hits) && InBounds(hits, |text|)
            && forall i, j :: 0 <= i < j < |hits| ==>
                 hits[i].start < hits[j].start || (hits[i].start == hits[j].start && hits[i].end <= hits[j].end)
  {
    var hits := Sorting.StableSort(Before, Unsorted(text, m));
    BeforeStrict();
    Sorting.StableSortSorts(Before, Unsorted(text, m));
    forall i | 0 <= i < |hits| ensures WellFormed(hits[i]) && hits[i].end <= |text| {
      assert hits[i] in hits;
      DetectedExactly(text, m, hits[i]);
      ReportedInBounds(text, m, hits[i]);
    }
    forall i, j | 0 <= i < j < |hits|
      ensures hits[i].start < hits[j].start || (hits[i].start == hits[j].start && hits[i].end <= hits[j].end)
    {
      assert !Before(hits[j], hits[i]);
    }
  }

  lemma ReportedInBounds(text: string, m: Matches, h: Hit)
    requires MatchesIn(text, m) && Reported(text, m, h)
    ensures WellFormed(h) && h.end <= |text|
  {
    assert SpanIn(text, Span(h.start, h.end));
  }

  /** A message as it is sent on, and its hits: what the detectors report is exactly what is cut out. */
  method RedactMessage(text: string, m: Matches) returns (redacted: string, hits: seq<Hit>)
    requires MatchesIn(text, m)
    ensures redacted == Reference(text, hits)
    ensures forall h :: h in hits <==> Reported(text, m, h)
  {
    hits := Detect(text, m);
    redacted := Redact(text, hits);
    forall h ensures h in hits <==> Reported(text, m, h) { DetectedExactly(text, m, h); }
  }
}
