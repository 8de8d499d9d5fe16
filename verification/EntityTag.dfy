/** Matching an If-None-Match header against an entity tag. */
module EntityTag {
  import opened QueryStrings

  ghost predicate Trimmed(s: string) { s != "" && !Blank(s[0]) && !Blank(s[|s| - 1]) }

  // ---------- Commas outside quotes ----------

  /** Whether a quote is open after the text. */
  predicate InQuote(s: string) {
    if s == "" then false else InQuote(s[..|s| - 1]) != (s[|s| - 1] == '"')
  }

  predicate SeparatesAt(s: string, i: nat) { i < |s| && s[i] == ',' && !InQuote(s[..i]) }

  /** The first comma outside quotes, or |s|. */
  function Separator(s: string, from: nat): (i: nat)
    requires from <= |s|
    ensures from <= i <= |s| && (i < |s| ==> SeparatesAt(s, i))
    ensures forall j :: from <= j < i ==> !SeparatesAt(s, j)
    decreases |s| - from
  {
    if from == |s| || SeparatesAt(s, from) then from else Separator(s, from + 1)
  }

  /** Go's -1 is |s| here. */
  method IndexUnquotedComma(s: string) returns (i: nat)
    ensures i == Separator(s, 0)
  {
    var inQuote := false;
    i := 0;
    while i < |s|
      invariant i <= |s| && inQuote == InQuote(s[..i])
      invariant Separator(s, 0) == Separator(s, i)
    {
      assert s[..i + 1][..i] == s[..i];
      if s[i] == '"' {
        inQuote := !inQuote;
      } else if s[i] == ',' {
        if !inQuote {
          return;
        }
      }
      i := i + 1;
    }
  }

  /** The items between separators. Quotes are counted anew in each rest. */
  function Items(s: string): seq<string>
    decreases |s|
  {
    var i := Separator(s, 0);
    if i == |s| then [s] else [s[..i]] + Items(s[i + 1..])
  }

  predicate Matches(header: string, etag: string) {
    var h := TrimSpace(header);
    h != "" && (h == "*" || exists i :: 0 <= i < |Items(h)| && TrimSpace(Items(h)[i]) == etag)
  }

  method IfNoneMatchHas(header: string, etag: string) returns (has: bool)
    ensures has == Matches(header, etag)
  {
    var h := TrimSpace(header);
    ghost var all, done := Items(h), [];
    if h == "" {
      return false;
    }
    if h == "*" {
      return true;
    }
    while true
      invariant all == done + Items(h)
      invariant forall k :: 0 <= k < |done| ==> TrimSpace(done[k]) != etag
      decreases |h|
    {
      var comma := IndexUnquotedComma(h);
      var item := h[..comma];
      assert all[|done|] == item;
      if TrimSpace(item) == etag {
        return true;
      }
      if comma == |h| {
        assert all == done + [item];
        return false;
      }
      done := done + [item];
      h := h[comma + 1..];
    }
  }

  // ---------- Lists of tags ----------

  /** A tag such as "x" or W/"x": trimmed, its quotes closed, and no comma outside them. */
  ghost predicate Tag(s: string) {
    Trimmed(s) && !InQuote(s) && forall i :: !SeparatesAt(s, i)
  }

  /** An entity tag of RFC 9110, section 8.8.3: an optional W/ and a quoted text without quotes in it. */
  function Spelled(weak: bool, text: string): string { (if weak then "W/" else "") + ['"'] + text + ['"'] }

  lemma {:induction false} NoQuoteInside(s: string)
    requires Lacks(s, '"')
    ensures !InQuote(s)
  {
    if s != "" {
      NoQuoteInside(s[..|s| - 1]);
    }
  }

  /** Inside the quotes everything is quoted, commas included; outside, nothing is. */
  lemma QuotedInside(weak: bool, text: string, i: nat)
    requires Lacks(text, '"') && i <= |Spelled(weak, text)|
    ensures var lead := if weak then 2 else 0; InQuote(Spelled(weak, text)[..i]) <==> lead < i <= lead + 1 + |text|
  {
    var head := if weak then "W/" else "";
    var lead, s := |head|, Spelled(weak, text);
    if i <= lead {
      assert s[..i] == head[..i];
      NoQuoteInside(head[..i]);
    } else if i <= lead + 1 + |text| {
      assert s[..i] == head + (['"'] + text[..i - lead - 1]);
      OpenQuote(head, text[..i - lead - 1]);
    } else {
      assert s[..i] == s && s[..|s| - 1] == head + (['"'] + text);
      OpenQuote(head, text);
    }
  }

  lemma OpenQuote(head: string, text: string)
    requires Lacks(head, '"') && Lacks(text, '"')
    ensures InQuote(head + (['"'] + text))
  {
    assert ['"'][..0] == "" && InQuote(['"']);
    NoQuoteInside(head);
    NoQuoteInside(text);
    QuoteConcat(['"'], text);
    QuoteConcat(head, ['"'] + text);
  }

  lemma SpelledIsTag(weak: bool, text: string)
    requires Lacks(text, '"')
    ensures Tag(Spelled(weak, text))
  {
    var s, lead := Spelled(weak, text), if weak then 2 else 0;
    assert s[..|s|] == s;
    QuotedInside(weak, text, |s|);
    forall i: nat ensures !SeparatesAt(s, i) {
      if i < |s| && s[i] == ',' {
        assert lead < i < |s| - 1;
        QuotedInside(weak, text, i);
      }
    }
  }

  /** The tag behind some blanks is still one item without a separator. */
  ghost predicate Piece(s: string, tag: string) {
    !InQuote(s) && (forall i :: !SeparatesAt(s, i)) && TrimSpace(s) == tag
  }

  lemma {:induction false} QuoteConcat(a: string, b: string)
    ensures InQuote(a + b) == (InQuote(a) != InQuote(b))
  {
    if b == "" {
      assert a + b == a;
    } else {
      QuoteConcat(a, b[..|b| - 1]);
      assert (a + b)[..|a + b| - 1] == a + b[..|b| - 1];
    }
  }

  /** The separators of a text put behind another whose quotes are closed. */
  lemma SeparatorsConcat(a: string, b: string, i: nat)
    requires !InQuote(a)
    ensures SeparatesAt(a + b, i) <==> if i < |a| then SeparatesAt(a, i) else SeparatesAt(b, i - |a|)
  {
    if i < |a| {
      assert (a + b)[..i] == a[..i];
    } else if i < |a + b| {
      assert (a + b)[..i] == a + b[..i - |a|];
      QuoteConcat(a, b[..i - |a|]);
    }
  }

  lemma ItemsCons(piece: string, tag: string, rest: string)
    requires Piece(piece, tag)
    ensures Items(piece) == [piece] && Items(piece + "," + rest) == [piece] + Items(rest)
  {
    var s := piece + "," + rest;
    assert s == piece + ("," + rest);
    SeparatorsConcat(piece, "," + rest, |piece|);
    assert ("," + rest)[..0] == "" && SeparatesAt("," + rest, 0);
    forall j | 0 <= j < |piece| ensures !SeparatesAt(s, j) {
      SeparatorsConcat(piece, "," + rest, j);
    }
    assert Separator(s, 0) == |piece|;
    assert s[..|piece|] == piece && s[|piece| + 1..] == rest;
  }

  lemma TagPieces(tag: string)
    requires Tag(tag)
    ensures Piece(tag, tag) && Piece(" " + tag, tag)
  {
    assert TrimSpace(tag) == tag;
    var s := " " + tag;
    assert s[1..] == tag && SkipBlanks(s) == tag;
    assert !InQuote(" ") by {
      assert " "[..0] == "";
    }
    QuoteConcat(" ", tag);
    forall i: nat ensures !SeparatesAt(s, i) {
      SeparatorsConcat(" ", tag, i);
    }
  }

  /** The tags joined by commas, each behind the first with a blank in front. */
  function Listed(tags: seq<string>): string {
    if tags == [] then "" else if |tags| == 1 then tags[0] else tags[0] + "," + (" " + Listed(tags[1..]))
  }

  lemma {:induction false} ListedItems(tags: seq<string>, lead: string)
    requires tags != [] && (lead == "" || lead == " ") && forall i :: 0 <= i < |tags| ==> Tag(tags[i])
    ensures var items := Items(lead + Listed(tags));
            |items| == |tags| && forall i :: 0 <= i < |tags| ==> TrimSpace(items[i]) == tags[i]
    decreases |tags|
  {
    hide Items, Tag, TrimSpace, InQuote;
    TagPieces(tags[0]);
    var piece := lead + tags[0];
    assert lead == "" ==> piece == tags[0];
    assert Piece(piece, tags[0]);
    if |tags| == 1 {
      ItemsCons(piece, tags[0], "");
    } else {
      ListedItems(tags[1..], " ");
      ItemsCons(piece, tags[0], " " + Listed(tags[1..]));
      assert lead + Listed(tags) == piece + "," + (" " + Listed(tags[1..]));
    }
  }

  lemma {:induction false} ListedTrimmed(tags: seq<string>)
    requires tags != [] && forall i :: 0 <= i < |tags| ==> Tag(tags[i])
    ensures Trimmed(Listed(tags))
  {
    hide InQuote;
    if |tags| > 1 {
      ListedTrimmed(tags[1..]);
    }
  }

  /** A header that lists tags matches exactly the tags it lists, commas inside their quotes included;
      only the list of the single tag * matches everything. */
  lemma ListMatchesItsTags(tags: seq<string>, etag: string)
    requires tags != [] && forall i :: 0 <= i < |tags| ==> Tag(tags[i])
    ensures Matches(Listed(tags), etag) <==> tags == ["*"] || etag in tags
  {
    hide Items, Tag, InQuote;
    var h := Listed(tags);
    ListedTrimmed(tags);
    assert TrimSpace(h) == h;
    hide TrimSpace;
    ListedItems(tags, "");
    assert "" + h == h;
    StarAlone(tags);
    var items := Items(h);
    if etag in tags {
      var i :| 0 <= i < |tags| && tags[i] == etag;
      assert TrimSpace(items[i]) == etag;
    }
  }

  lemma StarAlone(tags: seq<string>)
    requires tags != []
    ensures Listed(tags) == "*" <==> tags == ["*"]
  {
    if |tags| > 1 {
      assert Listed(tags)[|tags[0]|] == ',';
    } else {
      assert tags == [tags[0]];
    }
  }

  function AllSpelled(weak: seq<bool>, texts: seq<string>): seq<string>
    requires |weak| == |texts|
  {
    seq(|texts|, i requires 0 <= i < |texts| => Spelled(weak[i], texts[i]))
  }

  /** So a header that lists entity tags matches exactly those, whatever commas and blanks they contain. */
  lemma HeaderMatchesItsTags(weak: seq<bool>, texts: seq<string>, etag: string)
    requires |weak| == |texts| > 0 && forall i :: 0 <= i < |texts| ==> Lacks(texts[i], '"')
    ensures Matches(Listed(AllSpelled(weak, texts)), etag) <==> exists i :: 0 <= i < |texts| && etag == Spelled(weak[i], texts[i])
  {
    hide Listed, Matches, Tag;
    var tags := AllSpelled(weak, texts);
    forall i | 0 <= i < |tags| ensures Tag(tags[i]) {
      SpelledIsTag(weak[i], texts[i]);
    }
    ListMatchesItsTags(tags, etag);
    assert tags[0] == Spelled(weak[0], texts[0]) && |tags[0]| >= 2;
    if i :| 0 <= i < |texts| && etag == Spelled(weak[i], texts[i]) {
      assert tags[i] == etag;
    }
  }
}
