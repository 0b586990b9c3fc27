/** Merging detected spans and redacting them. */
module Redaction {

  datatype Kind = Email | Phone | CreditCardLike | ApiKeyLike
  datatype Hit = Hit(kind: Kind, start: int, end: int)

  predicate WellFormed(h: Hit) {
    0 <= h.start < h.end
  }

  ghost predicate AllWellFormed(hits: seq<Hit>) {
    forall i :: 0 <= i < |hits| ==> WellFormed(hits[i])
  }

  // ----- What redaction means, position by position -----------------------------

  ghost predicate Covered(hits: seq<Hit>, p: int) {
    exists i :: 0 <= i < |hits| && hits[i].start <= p < hits[i].end
  }

  ghost predicate StrictlyInside(hits: seq<Hit>, p: int) {
    exists i :: 0 <= i < |hits| && hits[i].start < p < hits[i].end
  }

  /** The kind of the first hit in the list that starts at `p`. */
  function FirstKind(hits: seq<Hit>, p: int): (kind: Found)
  {
    if hits == [] then Absent
    else
      var n := |hits| - 1;
      var earlier := FirstKind(hits[..n], p);
      if earlier.Present? then earlier else if hits[n].start == p then Present(hits[n].kind) else Absent
  }

  lemma {:induction false} FirstKindMeans(hits: seq<Hit>, p: int, kind: Kind)
    ensures FirstKind(hits, p) == Present(kind) <==>
              exists i :: 0 <= i < |hits| && hits[i].start == p && hits[i].kind == kind
                       && forall j :: 0 <= j < i ==> hits[j].start != p
    ensures FirstKind(hits, p) == Absent <==> forall i :: 0 <= i < |hits| ==> hits[i].start != p
  {
    if hits != [] {
      var n := |hits| - 1;
      FirstKindMeans(hits[..n], p, kind);
      assert forall i :: 0 <= i < n ==> hits[..n][i] == hits[i];
    }
  }

  datatype Found = Absent | Present(kind: Kind)

  /** A maximal group of overlapping hits begins at `p`. */
  ghost predicate GroupStart(hits: seq<Hit>, p: int) {
    FirstKind(hits, p).Present? && !StrictlyInside(hits, p)
  }

  function Name(kind: Kind): string {
    match kind
    case Email => "email"
    case Phone => "phone"
    case CreditCardLike => "credit_card_like"
    case ApiKeyLike => "api_key_like"
  }

  function Tag(kind: Kind): string {
    "[REDACTED:" + Name(kind) + "]"
  }

  lemma TagsRead()
    ensures Tag(Email) == "[REDACTED:email]"
    ensures Tag(Phone) == "[REDACTED:phone]"
    ensures Tag(CreditCardLike) == "[REDACTED:credit_card_like]"
    ensures Tag(ApiKeyLike) == "[REDACTED:api_key_like]"
  {
  }

  /** What position `p` contributes: a tag if a group begins there, and the byte itself if no hit covers it. */
  ghost function At(text: string, hits: seq<Hit>, p: nat): string
    requires p < |text|
  {
    (if GroupStart(hits, p) then Tag(FirstKind(hits, p).kind) else "") + (if Covered(hits, p) then "" else [text[p]])
  }

  ghost function Parts(text: string, hits: seq<Hit>): seq<string> {
    seq(|text|, p requires 0 <= p < |text| => At(text, hits, p))
  }

  function Concat(parts: seq<string>, p: nat): string
    requires p <= |parts|
    decreases |parts| - p
  {
    if p == |parts| then "" else parts[p] + Concat(parts, p + 1)
  }

  /** The redacted text: one tag where a group begins, and the bytes outside every hit, in order. */
  ghost function Reference(text: string, hits: seq<Hit>): string {
    Concat(Parts(text, hits), 0)
  }

  // ----- Merging ----------------------------------------------------------------

  ghost predicate InOrder(hits: seq<Hit>) {
    && AllWellFormed(hits)
    && (forall i, j :: 0 <= i < j < |hits| ==> hits[i].start <= hits[j].start)
  }

  /** Sorted, non-empty and pairwise disjoint. */
  ghost predicate Separated(merged: seq<Hit>) {
    && AllWellFormed(merged)
    && (forall i, j :: 0 <= i < j < |merged| ==> merged[i].end <= merged[j].start)
  }

  ghost predicate Contained(hit: Hit, merged: seq<Hit>) {
    exists i :: 0 <= i < |merged| && merged[i].start <= hit.start && hit.end <= merged[i].end
  }

  /** Every hit lies within one piece. */
  ghost predicate Containing(hits: seq<Hit>, merged: seq<Hit>) {
    forall j :: 0 <= j < |hits| ==> Contained(hits[j], merged)
  }

  /** A piece is held together by its hits: each point between its ends is strictly inside one of them. */
  ghost predicate Solid(hits: seq<Hit>, merged: seq<Hit>) {
    forall i, p :: 0 <= i < |merged| && merged[i].start < p < merged[i].end ==> StrictlyInside(hits, p)
  }

  /** A piece begins where a hit begins, and has the kind of the first such hit. */
  ghost predicate Labelled(hits: seq<Hit>, merged: seq<Hit>) {
    forall i :: 0 <= i < |merged| ==> FirstKind(hits, merged[i].start) == Present(merged[i].kind)
  }

  /** One piece per maximal group of overlapping hits, with the kind of the group's first hit. */
  ghost predicate Groups(hits: seq<Hit>, merged: seq<Hit>) {
    Separated(merged) && Containing(hits, merged) && Solid(hits, merged) && Labelled(hits, merged)
  }

  ghost predicate EndsAmong(merged: seq<Hit>, hits: seq<Hit>) {
    forall i :: 0 <= i < |merged| ==> exists j :: 0 <= j < |hits| && merged[i].end == hits[j].end
  }

  /** One more hit: ignored if malformed, joined to the last piece if it begins inside it, else a new piece. */
  function Joined(merged: seq<Hit>, hit: Hit): seq<Hit> {
    if !WellFormed(hit) then merged
    else if merged == [] || hit.start >= merged[|merged| - 1].end then merged + [hit]
    else
      var last := merged[|merged| - 1];
      merged[|merged| - 1 := last.(end := if hit.end > last.end then hit.end else last.end)]
  }

  function Merged(hits: seq<Hit>): seq<Hit> {
    if hits == [] then [] else Joined(Merged(hits[..|hits| - 1]), hits[|hits| - 1])
  }

  method MergeHits(hits: seq<Hit>) returns (merged: seq<Hit>)
    ensures merged == Merged(hits)
    ensures AllWellFormed(merged) && EndsAmong(merged, hits)
    ensures InOrder(hits) ==> Groups(hits, merged)
  {
    merged := [];
    for n := 0 to |hits|
      invariant merged == Merged(hits[..n])
    {
      assert hits[..n + 1][..n] == hits[..n];
      var hit := hits[n];
      if hit.start < 0 || hit.end <= hit.start {
        continue;
      }
      if |merged| == 0 {
        merged := [hit];
        continue;
      }
      var last := merged[|merged| - 1];
      if hit.start < last.end {
        if hit.end > last.end {
          merged := merged[|merged| - 1 := last.(end := hit.end)];
        }
        continue;
      }
      merged := merged + [hit];
    }
    assert hits[..|hits|] == hits;
    MergedBounds(hits);
    if InOrder(hits) { MergedGroups(hits); }
  }

  lemma {:induction false} MergedBounds(hits: seq<Hit>)
    ensures AllWellFormed(Merged(hits)) && EndsAmong(Merged(hits), hits)
  {
    if hits != [] {
      var n := |hits| - 1;
      MergedBounds(hits[..n]);
      JoinedBounds(Merged(hits[..n]), hits[..n], hits[n]);
      assert hits[..n] + [hits[n]] == hits;
    }
  }

  lemma JoinedBounds(merged: seq<Hit>, hits: seq<Hit>, hit: Hit)
    requires AllWellFormed(merged) && EndsAmong(merged, hits)
    ensures AllWellFormed(Joined(merged, hit)) && EndsAmong(Joined(merged, hit), hits + [hit])
  {
    var more, joined := hits + [hit], Joined(merged, hit);
    assert more[|hits|] == hit;
    forall i | 0 <= i < |joined| ensures WellFormed(joined[i]) && exists j :: 0 <= j < |more| && joined[i].end == more[j].end {
      if i < |merged| && joined[i].end == merged[i].end {
        assert WellFormed(merged[i]);
        var j :| 0 <= j < |hits| && merged[i].end == hits[j].end;
        assert more[j] == hits[j];
      } else {
        assert more[|hits|] == hit;
        assert i < |merged| ==> WellFormed(merged[i]);
      }
    }
  }

  lemma {:induction false} MergedGroups(hits: seq<Hit>)
    requires InOrder(hits)
    ensures Groups(hits, Merged(hits))
  {
    if hits != [] {
      var n := |hits| - 1;
      MergedGroups(hits[..n]);
      assert WellFormed(hits[n]) && hits[..n] + [hits[n]] == hits;
      OneMoreHit(hits, Merged(hits[..n]));
    }
  }

  lemma OneMoreHit(hits: seq<Hit>, merged: seq<Hit>)
    requires InOrder(hits) && hits != [] && Groups(hits[..|hits| - 1], merged)
    ensures Groups(hits[..|hits| - 1] + [hits[|hits| - 1]], Joined(merged, hits[|hits| - 1]))
  {
    var n := |hits| - 1;
    assert WellFormed(hits[n]);
    if merged == [] || hits[n].start >= merged[|merged| - 1].end {
      StartGroup(hits[..n], merged, hits[n]);
    } else {
      BeginsWithAHit(hits[..n], merged, |merged| - 1);
      JoinGroup(hits[..n], merged, hits[n], Joined(merged, hits[n]));
    }
  }

  lemma BeginsWithAHit(hits: seq<Hit>, merged: seq<Hit>, i: nat)
    requires Labelled(hits, merged) && i < |merged|
    ensures exists j :: 0 <= j < |hits| && hits[j].start == merged[i].start
  {
    FirstKindStarts(hits, merged[i].start);
  }

  lemma InsideGrows(hits: seq<Hit>, hit: Hit, p: int)
    ensures StrictlyInside(hits + [hit], p) <==> StrictlyInside(hits, p) || hit.start < p < hit.end
  {
    var more := hits + [hit];
    if i :| 0 <= i < |hits| && hits[i].start < p < hits[i].end { assert more[i] == hits[i]; }
    if hit.start < p < hit.end { assert more[|hits|] == hit; }
  }

  lemma FirstKindGrows(hits: seq<Hit>, hit: Hit, p: int)
    ensures FirstKind(hits + [hit], p) ==
            if FirstKind(hits, p).Present? then FirstKind(hits, p) else if hit.start == p then Present(hit.kind) else Absent
  {
    assert (hits + [hit])[..|hits|] == hits;
  }

  lemma {:induction false} FirstKindStarts(hits: seq<Hit>, p: int)
    ensures FirstKind(hits, p).Present? <==> exists i :: 0 <= i < |hits| && hits[i].start == p
  {
    if hits != [] {
      var n := |hits| - 1;
      FirstKindStarts(hits[..n], p);
      if i :| 0 <= i < n && hits[i].start == p { assert hits[..n][i] == hits[i]; }
    }
  }

  lemma ContainingGrows(hits: seq<Hit>, merged: seq<Hit>, hit: Hit, grown: seq<Hit>)
    requires Containing(hits, merged) && Contained(hit, grown)
    requires |merged| <= |grown|
    requires forall i :: 0 <= i < |merged| ==> grown[i].start == merged[i].start && merged[i].end <= grown[i].end
    ensures Containing(hits + [hit], grown)
  {
    forall j | 0 <= j < |hits| ensures Contained(hits[j], grown) {
      assert Contained(hits[j], merged);
      var i :| 0 <= i < |merged| && merged[i].start <= hits[j].start && hits[j].end <= merged[i].end;
      assert grown[i].start == merged[i].start && merged[i].end <= grown[i].end;
    }
  }

  // A hit that begins at or after the end of the last piece starts a group of its own.

  ghost predicate Starts(merged: seq<Hit>, hit: Hit) {
    && Separated(merged) && WellFormed(hit)
    && (merged != [] ==> merged[|merged| - 1].end <= hit.start)
  }

  lemma StartGroup(hits: seq<Hit>, merged: seq<Hit>, hit: Hit)
    requires AllWellFormed(hits) && Groups(hits, merged) && Starts(merged, hit)
    ensures Groups(hits + [hit], merged + [hit])
  {
    StartSeparated(merged, hit);
    assert (merged + [hit])[|merged|] == hit;
    ContainingGrows(hits, merged, hit, merged + [hit]);
    StartSolid(hits, merged, hit);
    StartLabelled(hits, merged, hit);
  }

  lemma StartSeparated(merged: seq<Hit>, hit: Hit)
    requires Starts(merged, hit)
    ensures Separated(merged + [hit])
  {
    forall i | 0 <= i < |merged| ensures merged[i].end <= hit.start {
      if i < |merged| - 1 { assert merged[i].end <= merged[|merged| - 1].start; }
    }
  }

  lemma StartSolid(hits: seq<Hit>, merged: seq<Hit>, hit: Hit)
    requires Solid(hits, merged)
    ensures Solid(hits + [hit], merged + [hit])
  {
    var more := merged + [hit];
    forall i, p | 0 <= i < |more| && more[i].start < p < more[i].end ensures StrictlyInside(hits + [hit], p) {
      InsideGrows(hits, hit, p);
      if i < |merged| { assert more[i] == merged[i]; }
    }
  }

  lemma StartLabelled(hits: seq<Hit>, merged: seq<Hit>, hit: Hit)
    requires AllWellFormed(hits) && Containing(hits, merged) && Labelled(hits, merged) && Starts(merged, hit)
    ensures Labelled(hits + [hit], merged + [hit])
  {
    var more := merged + [hit];
    NoEarlierStart(hits, merged, hit);
    forall i | 0 <= i < |more| ensures FirstKind(hits + [hit], more[i].start) == Present(more[i].kind) {
      FirstKindGrows(hits, hit, more[i].start);
      if i < |merged| { assert more[i] == merged[i]; }
    }
  }

  lemma NoEarlierStart(hits: seq<Hit>, merged: seq<Hit>, hit: Hit)
    requires AllWellFormed(hits) && Containing(hits, merged) && Starts(merged, hit)
    ensures FirstKind(hits, hit.start) == Absent
  {
    FirstKindStarts(hits, hit.start);
    forall j | 0 <= j < |hits| ensures hits[j].start != hit.start {
      assert Contained(hits[j], merged) && WellFormed(hits[j]);
      EndsBefore(merged, hits[j], hit);
    }
  }

  lemma EndsBefore(merged: seq<Hit>, earlier: Hit, hit: Hit)
    requires Contained(earlier, merged) && Starts(merged, hit)
    ensures earlier.end <= hit.start
  {
    var i :| 0 <= i < |merged| && merged[i].start <= earlier.start && earlier.end <= merged[i].end;
    var n := |merged| - 1;
    assert WellFormed(merged[n]);
    assert i < n ==> merged[i].end <= merged[n].start;
  }

  // A hit that begins before the end of the last piece joins its group.

  ghost predicate Joins(merged: seq<Hit>, hit: Hit, joined: seq<Hit>) {
    && Separated(merged) && WellFormed(hit) && merged != []
    && var last := merged[|merged| - 1];
       && last.start <= hit.start < last.end
       && joined == merged[|merged| - 1 := last.(end := if hit.end > last.end then hit.end else last.end)]
  }

  lemma JoinGroup(hits: seq<Hit>, merged: seq<Hit>, hit: Hit, joined: seq<Hit>)
    requires Groups(hits, merged) && Joins(merged, hit, joined)
    ensures Groups(hits + [hit], joined)
  {
    var n := |merged| - 1;
    assert Contained(hit, joined) by { assert joined[n].start <= hit.start && hit.end <= joined[n].end; }
    ContainingGrows(hits, merged, hit, joined);
    JoinSolid(hits, merged, hit, joined);
    JoinLabelled(hits, merged, hit, joined);
    JoinSeparated(merged, hit, joined);
  }

  lemma JoinSeparated(merged: seq<Hit>, hit: Hit, joined: seq<Hit>)
    requires Joins(merged, hit, joined)
    ensures Separated(joined)
  {
  }

  lemma JoinSolid(hits: seq<Hit>, merged: seq<Hit>, hit: Hit, joined: seq<Hit>)
    requires Solid(hits, merged) && Joins(merged, hit, joined)
    ensures Solid(hits + [hit], joined)
  {
    forall i, p | 0 <= i < |joined| && joined[i].start < p < joined[i].end ensures StrictlyInside(hits + [hit], p) {
      InsideGrows(hits, hit, p);
      if p < merged[i].end { assert merged[i].start < p < merged[i].end; }
    }
  }

  lemma JoinLabelled(hits: seq<Hit>, merged: seq<Hit>, hit: Hit, joined: seq<Hit>)
    requires Labelled(hits, merged) && Joins(merged, hit, joined)
    ensures Labelled(hits + [hit], joined)
  {
    forall i | 0 <= i < |joined| ensures FirstKind(hits + [hit], joined[i].start) == Present(joined[i].kind) {
      FirstKindGrows(hits, hit, joined[i].start);
      assert joined[i].start == merged[i].start;
    }
  }

  // ----- The pieces mean the same as the hits ------------------------------------

  lemma SameCover(hits: seq<Hit>, merged: seq<Hit>, p: int)
    requires AllWellFormed(hits) && Groups(hits, merged)
    ensures Covered(hits, p) <==> Covered(merged, p)
  {
    if j :| 0 <= j < |hits| && hits[j].start <= p < hits[j].end {
      assert Contained(hits[j], merged);
    }
    if i :| 0 <= i < |merged| && merged[i].start <= p < merged[i].end {
      if merged[i].start == p {
        BeginsWithAHit(hits, merged, i);
      } else {
        assert StrictlyInside(hits, p);
      }
    }
  }

  ghost predicate PieceStart(merged: seq<Hit>, p: int) {
    exists i :: 0 <= i < |merged| && merged[i].start == p
  }

  lemma SameStarts(hits: seq<Hit>, merged: seq<Hit>, p: int)
    requires AllWellFormed(hits) && Groups(hits, merged)
    ensures GroupStart(hits, p) <==> PieceStart(merged, p)
  {
    FirstKindStarts(hits, p);
    if GroupStart(hits, p) {
      var j :| 0 <= j < |hits| && hits[j].start == p;
      assert Contained(hits[j], merged) && WellFormed(hits[j]);
      var i :| 0 <= i < |merged| && merged[i].start <= hits[j].start && hits[j].end <= merged[i].end;
      assert merged[i].start == p;
    }
    if i :| 0 <= i < |merged| && merged[i].start == p {
      assert FirstKind(hits, merged[i].start) == Present(merged[i].kind);
      NotInside(hits, merged, i);
    }
  }

  lemma NotInside(hits: seq<Hit>, merged: seq<Hit>, i: nat)
    requires Separated(merged) && Containing(hits, merged) && i < |merged|
    ensures !StrictlyInside(hits, merged[i].start)
  {
    forall j | 0 <= j < |hits| ensures !(hits[j].start < merged[i].start < hits[j].end) {
      assert Contained(hits[j], merged) && WellFormed(merged[i]);
      var k :| 0 <= k < |merged| && merged[k].start <= hits[j].start && hits[j].end <= merged[k].end;
      assert i < k ==> merged[i].end <= merged[k].start;
      assert k < i ==> merged[k].end <= merged[i].start;
    }
  }

  // ----- Redacting ----------------------------------------------------------------

  ghost predicate InBounds(hits: seq<Hit>, limit: int) {
    forall i :: 0 <= i < |hits| ==> hits[i].end <= limit
  }

  /** For hits in order, the result is exactly the reference; for any others the slices are still in bounds. */
  method Redact(text: string, hits: seq<Hit>) returns (redacted: string)
    requires InBounds(hits, |text|)
    ensures InOrder(hits) ==> redacted == Reference(text, hits)
  {
    if |hits| == 0 {
      NoHits(text);
      return text;
    }
    var normalized := MergeHits(hits);
    assert InBounds(normalized, |text|);
    redacted := WritePieces(text, normalized);
    if InOrder(hits) { RenderExact(text, hits, normalized, 0, 0); }
  }

  method WritePieces(text: string, normalized: seq<Hit>) returns (redacted: string)
    requires AllWellFormed(normalized) && InBounds(normalized, |text|)
    ensures redacted == Render(text, normalized, 0, 0)
  {
    redacted := "";
    var cursor := 0;
    for i := 0 to |normalized|
      invariant 0 <= cursor <= |text|
      invariant redacted + Render(text, normalized, i, cursor) == Render(text, normalized, 0, 0)
    {
      var hit := normalized[i];
      assert WellFormed(hit) && hit.end <= |text|;
      if hit.start < cursor {
        continue;
      }
      Regrouped(redacted, text[cursor..hit.start], Tag(hit.kind), Render(text, normalized, i + 1, hit.end));
      redacted := redacted + text[cursor..hit.start];
      redacted := redacted + Tag(hit.kind);
      cursor := hit.end;
    }
    redacted := redacted + text[cursor..];
  }

  /** What is still to be written from the `i`-th piece on. */
  ghost function Render(text: string, merged: seq<Hit>, i: nat, cursor: nat): string
    requires AllWellFormed(merged) && InBounds(merged, |text|) && i <= |merged| && cursor <= |text|
    decreases |merged| - i
  {
    if i == |merged| then text[cursor..]
    else
      assert WellFormed(merged[i]) && merged[i].end <= |text|;
      if merged[i].start < cursor then Render(text, merged, i + 1, cursor)
      else text[cursor..merged[i].start] + (Tag(merged[i].kind) + Render(text, merged, i + 1, merged[i].end))
  }

  lemma Regrouped(a: string, b: string, c: string, d: string)
    ensures a + (b + (c + d)) == (a + b + c) + d
  {
  }

  lemma NoHits(text: string)
    ensures Reference(text, []) == text
  {
    Plain(Parts(text, []), text, 0, |text|);
    assert text[0..|text|] == text;
  }

  lemma {:induction false} RenderExact(text: string, hits: seq<Hit>, merged: seq<Hit>, i: nat, cursor: nat)
    requires AllWellFormed(hits) && Groups(hits, merged) && InBounds(merged, |text|)
    requires i <= |merged| && cursor == (if i == 0 then 0 else merged[i - 1].end) <= |text|
    ensures Render(text, merged, i, cursor) == Concat(Parts(text, hits), cursor)
    decreases |merged| - i
  {
    if i == |merged| {
      LastPiece(text, hits, merged, cursor);
    } else {
      NeverBehind(merged, i);
      RenderExact(text, hits, merged, i + 1, merged[i].end);
      Gap(text, hits, merged, i, cursor);
      PieceTag(text, hits, merged, i);
    }
  }

  lemma NeverBehind(merged: seq<Hit>, i: nat)
    requires Separated(merged) && i < |merged|
    ensures i > 0 ==> merged[i - 1].end <= merged[i].start
    ensures 0 <= merged[i].start < merged[i].end
  {
    assert WellFormed(merged[i]);
  }

  lemma Gap(text: string, hits: seq<Hit>, merged: seq<Hit>, i: nat, from: nat)
    requires AllWellFormed(hits) && Groups(hits, merged) && i < |merged|
    requires from == if i == 0 then 0 else merged[i - 1].end
    requires from <= merged[i].start <= |text|
    ensures Concat(Parts(text, hits), from) == text[from..merged[i].start] + Concat(Parts(text, hits), merged[i].start)
  {
    forall p | from <= p < merged[i].start ensures Parts(text, hits)[p] == [text[p]] {
      Between(merged, i, p);
      Outside(text, hits, merged, p);
    }
    Plain(Parts(text, hits), text, from, merged[i].start);
  }

  lemma PieceTag(text: string, hits: seq<Hit>, merged: seq<Hit>, i: nat)
    requires AllWellFormed(hits) && Groups(hits, merged) && i < |merged|
    requires 0 <= merged[i].start < merged[i].end <= |text|
    ensures Concat(Parts(text, hits), merged[i].start) == Tag(merged[i].kind) + Concat(Parts(text, hits), merged[i].end)
  {
    forall p | merged[i].start + 1 <= p < merged[i].end ensures Parts(text, hits)[p] == "" { Inside(text, hits, merged, i, p); }
    Begins(text, hits, merged, i);
    TagAndRest(Parts(text, hits), merged[i].start, merged[i].end, Tag(merged[i].kind));
  }

  lemma LastPiece(text: string, hits: seq<Hit>, merged: seq<Hit>, from: nat)
    requires AllWellFormed(hits) && Groups(hits, merged) && from <= |text|
    requires from == if merged == [] then 0 else merged[|merged| - 1].end
    ensures Concat(Parts(text, hits), from) == text[from..]
  {
    forall p | from <= p < |text| ensures Parts(text, hits)[p] == [text[p]] {
      Between(merged, |merged|, p);
      Outside(text, hits, merged, p);
    }
    Plain(Parts(text, hits), text, from, |text|);
    assert text[from..|text|] == text[from..];
  }

  lemma Outside(text: string, hits: seq<Hit>, merged: seq<Hit>, p: nat)
    requires AllWellFormed(hits) && Groups(hits, merged) && p < |text|
    requires !Covered(merged, p) && !PieceStart(merged, p)
    ensures At(text, hits, p) == [text[p]]
  {
    SameCover(hits, merged, p);
    SameStarts(hits, merged, p);
  }

  lemma Inside(text: string, hits: seq<Hit>, merged: seq<Hit>, i: nat, p: nat)
    requires Solid(hits, merged) && i < |merged| && merged[i].start < p < merged[i].end <= |text|
    ensures At(text, hits, p) == ""
  {
    assert StrictlyInside(hits, p);
  }

  lemma Begins(text: string, hits: seq<Hit>, merged: seq<Hit>, i: nat)
    requires AllWellFormed(hits) && Groups(hits, merged) && i < |merged| && 0 <= merged[i].start < merged[i].end <= |text|
    ensures At(text, hits, merged[i].start) == Tag(merged[i].kind)
  {
    SameCover(hits, merged, merged[i].start);
    SameStarts(hits, merged, merged[i].start);
    assert FirstKind(hits, merged[i].start) == Present(merged[i].kind);
  }

  /** Nothing lies between the end of a piece and the beginning of the next. */
  lemma Between(merged: seq<Hit>, i: nat, p: int)
    requires Separated(merged) && i <= |merged|
    requires i > 0 ==> merged[i - 1].end <= p
    requires i < |merged| ==> p < merged[i].start
    ensures !Covered(merged, p) && !PieceStart(merged, p)
  {
    forall k | 0 <= k < |merged| ensures merged[k].start < merged[k].end <= p || p < merged[k].start {
      assert WellFormed(merged[k]);
      if k < i - 1 {
        assert merged[k].end <= merged[i - 1].start;
        assert WellFormed(merged[i - 1]);
      } else if k > i {
        assert merged[i].end <= merged[k].start;
        assert WellFormed(merged[i]);
      }
    }
  }

  lemma {:induction false} Plain(parts: seq<string>, text: string, from: nat, upto: nat)
    requires from <= upto <= |text| == |parts|
    requires forall p :: from <= p < upto ==> parts[p] == [text[p]]
    ensures Concat(parts, from) == text[from..upto] + Concat(parts, upto)
    decreases upto - from
  {
    if from < upto {
      Plain(parts, text, from + 1, upto);
      Slice(text, from, upto, Concat(parts, upto));
    } else {
      assert text[from..upto] == "";
    }
  }

  lemma Slice(text: string, from: nat, upto: nat, rest: string)
    requires from < upto <= |text|
    ensures text[from..upto] + rest == [text[from]] + (text[from + 1..upto] + rest)
  {
    assert text[from..upto] == [text[from]] + text[from + 1..upto];
  }

  /** A tag and nothing up to the end of the piece. */
  lemma TagAndRest(parts: seq<string>, from: nat, upto: nat, tag: string)
    requires from < upto <= |parts| && parts[from] == tag
    requires forall p :: from + 1 <= p < upto ==> parts[p] == ""
    ensures Concat(parts, from) == tag + Concat(parts, upto)
  {
    Hidden(parts, from + 1, upto);
  }

  lemma {:induction false} Hidden(parts: seq<string>, from: nat, upto: nat)
    requires from <= upto <= |parts|
    requires forall p :: from <= p < upto ==> parts[p] == ""
    ensures Concat(parts, from) == Concat(parts, upto)
    decreases upto - from
  {
    if from < upto {
      Hidden(parts, from + 1, upto);
    }
  }
}
