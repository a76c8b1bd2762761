/**
 * The sources block the chat widget appends to a model reply: the
 * grounding chunks that carry a web link are kept in order and rendered as
 * an HTML list of links after the reply text (index.tsx:111-124).
 */
module Citations {
  import opened Wrappers

  /** A chunk's `web` record; both fields may be absent. */
  datatype Web = Web(uri: Option<string>, title: Option<string>)

  /** One grounding chunk of the response metadata; `web` may be absent. */
  datatype Chunk = Chunk(web: Option<Web>)

  /** A rendered list item as read back from the HTML: its `href` and its text. */
  datatype Link = Link(href: string, text: string)

  /** The fixed markup before and after the list, and around each item. */
  const SourcesHeader: string := "<div class=\"message-sources\"><h4>Here you go, book a table:</h4><ul>"
  const SourcesFooter: string := "</ul></div>"
  const ItemOpen: string := "<li><a href=\""
  const ItemMid: string := "\" target=\"_blank\" rel=\"noopener noreferrer\">"
  const ItemClose: string := "</a></li>"

  /** The filter's test `chunk.web && chunk.web.uri`: a web record whose uri is present and non-empty. */
  predicate HasLink(c: Chunk) {
    c.web.Some? && c.web.value.uri.Some? && c.web.value.uri.value != ""
  }

  predicate AllLinked(links: seq<Chunk>) {
    forall c :: c in links ==> HasLink(c)
  }

  /** `groundingChunks.filter(chunk => chunk.web && chunk.web.uri)`. */
  function ValidLinks(chunks: seq<Chunk>): (r: seq<Chunk>)
    ensures AllLinked(r)
    ensures |r| <= |chunks|
    ensures forall c :: c in r ==> c in chunks
  {
    if chunks == [] then []
    else (if HasLink(chunks[0]) then [chunks[0]] else []) + ValidLinks(chunks[1..])
  }

  /** The link's target, `chunk.web.uri`. */
  function Uri(c: Chunk): string
    requires HasLink(c)
  {
    c.web.value.uri.value
  }

  /** The link's text, `chunk.web.title || chunk.web.uri`: the title unless it is absent or empty. */
  function Label(c: Chunk): (r: string)
    requires HasLink(c)
    ensures r != []
    ensures c.web.value.title.Some? && c.web.value.title.value != "" ==> r == c.web.value.title.value
    ensures c.web.value.title.None? || c.web.value.title.value == "" ==> r == Uri(c)
  {
    match c.web.value.title
    case Some(t) => if t != "" then t else Uri(c)
    case None => Uri(c)
  }

  /** The `<li>` the forEach appends for one chunk. */
  function LinkItem(c: Chunk): string
    requires HasLink(c)
  {
    ItemOpen + Uri(c) + ItemMid + Label(c) + ItemClose
  }

  /** The items for a list of linked chunks, in order. */
  function Items(links: seq<Chunk>): string
    requires AllLinked(links)
  {
    if links == [] then "" else LinkItem(links[0]) + Items(links[1..])
  }

  /** The whole sources block for a non-empty list of linked chunks. */
  function SourcesBlock(links: seq<Chunk>): string
    requires AllLinked(links)
  {
    SourcesHeader + Items(links) + SourcesFooter
  }

  /** The chunks that get a list item: none when the metadata has no chunk list. */
  function Links(chunks: Option<seq<Chunk>>): (r: seq<Chunk>)
  {
    if chunks.Some? then ValidLinks(chunks.value) else []
  }

  /**
   * The bot entry built from a successful reply (index.tsx:113-124): the
   * reply text unchanged, followed by a sources block exactly when some
   * chunk carries a link.
   */
  function ReplyHtml(text: string, chunks: Option<seq<Chunk>>): (r: string)
    ensures text <= r
    ensures r == text <==> Links(chunks) == []
    ensures Links(chunks) != [] ==> r == text + SourcesBlock(Links(chunks))
  {
    if chunks.Some? && |chunks.value| > 0 then
      var valid := ValidLinks(chunks.value);
      if |valid| > 0 then text + SourcesBlock(valid) else text
    else
      text
  }

  /**
   * The assembly as the source performs it: filter, then append the header,
   * one item per kept chunk in a loop, and the footer onto `htmlResponse`.
   */
  method BuildReplyHtml(text: string, chunks: Option<seq<Chunk>>) returns (html: string)
    ensures html == ReplyHtml(text, chunks)
  {
    html := text;
    if chunks.Some? && |chunks.value| > 0 {
      var validLinks := ValidLinks(chunks.value);
      if |validLinks| > 0 {
        html := html + SourcesHeader;
        html := AppendItems(html, validLinks);
        html := html + SourcesFooter;
      }
    }
  }

  /** The `validLinks.forEach` loop: one `+=` of an item per linked chunk, in order. */
  method AppendItems(prefix: string, links: seq<Chunk>) returns (html: string)
    requires AllLinked(links)
    ensures html == prefix + Items(links)
  {
    html := prefix;
    var i := 0;
    while i < |links|
      invariant 0 <= i <= |links|
      invariant html == prefix + Items(links[..i])
    {
      var item := LinkItem(links[i]);
      ItemsAppend(links[..i], links[i]);
      assert links[..i + 1] == links[..i] + [links[i]];
      ConcatAssoc(prefix, Items(links[..i]), item);
      html := html + item;
      i := i + 1;
    }
    assert links[..i] == links;
  }

  lemma ConcatAssoc(a: string, b: string, c: string)
    ensures (a + b) + c == a + (b + c)
  {
  }

  /** Appending one more item at the end, as the forEach does. */
  lemma {:induction false} ItemsAppend(links: seq<Chunk>, c: Chunk)
    requires AllLinked(links) && HasLink(c)
    ensures AllLinked(links + [c])
    ensures Items(links + [c]) == Items(links) + LinkItem(c)
  {
    if links == [] {
      assert [c][1..] == [];
    } else {
      assert (links + [c])[1..] == links[1..] + [c];
      ItemsAppend(links[1..], c);
    }
  }

  // Filtering keeps exactly the linked chunks, in their original order.

  /** The filter distributes over concatenation: what comes first in the input comes first in the output. */
  lemma {:induction false} ValidLinksAppend(a: seq<Chunk>, b: seq<Chunk>)
    ensures ValidLinks(a + b) == ValidLinks(a) + ValidLinks(b)
  {
    if a == [] {
      assert a + b == b;
    } else {
      assert (a + b)[0] == a[0];
      assert (a + b)[1..] == a[1..] + b;
      ValidLinksAppend(a[1..], b);
    }
  }

  /** A chunk survives the filter if and only if it occurs in the input and has a link. */
  lemma {:induction false} ValidLinksMembers(chunks: seq<Chunk>, c: Chunk)
    ensures c in ValidLinks(chunks) <==> c in chunks && HasLink(c)
  {
    if chunks != [] {
      ValidLinksMembers(chunks[1..], c);
      assert c in chunks <==> c == chunks[0] || c in chunks[1..];
    }
  }

  /** The number of kept chunks is the number of linked chunks in the input. */
  function CountLinked(chunks: seq<Chunk>): nat
  {
    if chunks == [] then 0 else (if HasLink(chunks[0]) then 1 else 0) + CountLinked(chunks[1..])
  }

  lemma {:induction false} ValidLinksCount(chunks: seq<Chunk>)
    ensures |ValidLinks(chunks)| == CountLinked(chunks)
    ensures |ValidLinks(chunks)| == |chunks| <==> AllLinked(chunks)
  {
    if chunks != [] {
      ValidLinksCount(chunks[1..]);
      assert AllLinked(chunks) <==> HasLink(chunks[0]) && AllLinked(chunks[1..]) by {
        assert forall c :: c in chunks <==> c == chunks[0] || c in chunks[1..];
      }
    }
  }

  /** Filtering an already filtered list changes nothing. */
  lemma {:induction false} ValidLinksIdempotent(chunks: seq<Chunk>)
    ensures ValidLinks(ValidLinks(chunks)) == ValidLinks(chunks)
  {
    if chunks != [] {
      var head := if HasLink(chunks[0]) then [chunks[0]] else [];
      ValidLinksAppend(head, ValidLinks(chunks[1..]));
      ValidLinksIdempotent(chunks[1..]);
      assert head != [] ==> head[1..] == [];
    }
  }

  // Reading the rendered list back. The source escapes nothing, so a uri
  // holding '"' or a label holding '<' would break its own item; for every
  // other chunk the list reads back as exactly one item per kept chunk.

  /** The chunk's uri and label can stand in the markup without ending their field early. */
  predicate MarkupSafe(c: Chunk)
    requires HasLink(c)
  {
    '"' !in Uri(c) && '<' !in Label(c)
  }

  /** What a reader of the block sees for each chunk: its href and its text. */
  function Rendered(links: seq<Chunk>): (r: seq<Link>)
    requires AllLinked(links)
    ensures |r| == |links|
    ensures forall i :: 0 <= i < |links| ==> r[i] == Link(Uri(links[i]), Label(links[i]))
  {
    if links == [] then [] else [Link(Uri(links[0]), Label(links[0]))] + Rendered(links[1..])
  }

  /** The longest prefix of `s` without `stop`, and the rest. */
  function TakeUntil(s: string, stop: char): (r: (string, string))
    ensures r.0 + r.1 == s
    ensures stop !in r.0
    ensures r.1 == [] || r.1[0] == stop
  {
    if s == [] || s[0] == stop then ([], s)
    else
      var (a, b) := TakeUntil(s[1..], stop);
      assert [s[0]] + a + b == s;
      ([s[0]] + a, b)
  }

  /** `TakeUntil` splits at the first `stop` and nowhere else. */
  lemma {:induction false} TakeUntilSplit(x: string, y: string, stop: char)
    requires stop !in x
    requires y == [] || y[0] == stop
    ensures TakeUntil(x + y, stop) == (x, y)
  {
    if x == [] {
      assert x + y == y;
    } else {
      assert (x + y)[0] == x[0] != stop;
      assert (x + y)[1..] == x[1..] + y;
      assert stop !in x[1..];
      TakeUntilSplit(x[1..], y, stop);
      assert x == [x[0]] + x[1..];
    }
  }

  /** Reads a sequence of `<li>` items back into their links, or fails. */
  function ParseItems(s: string): Option<seq<Link>>
    decreases |s|
  {
    if s == [] then Some([])
    else if !(ItemOpen <= s) then None
    else
      var (href, r1) := TakeUntil(s[|ItemOpen|..], '"');
      if !(ItemMid <= r1) then None
      else
        var (caption, r2) := TakeUntil(r1[|ItemMid|..], '<');
        if !(ItemClose <= r2) then None
        else
          match ParseItems(r2[|ItemClose|..])
          case None => None
          case Some(rest) => Some([Link(href, caption)] + rest)
  }

  /** Reads a sources block (header, items, footer) back into its links, or fails. */
  function ParseSources(s: string): Option<seq<Link>>
  {
    if |SourcesHeader| + |SourcesFooter| <= |s| && SourcesHeader <= s
       && s[|s| - |SourcesFooter|..] == SourcesFooter
    then ParseItems(s[|SourcesHeader|..|s| - |SourcesFooter|])
    else None
  }

  /** The field reads of one item, for any delimiters that start with the stop characters. */
  lemma {:induction false} ReadItem(open: string, uri: string, mid: string, caption: string, close: string, rest: string)
    requires '"' !in uri && '<' !in caption
    requires mid != [] && mid[0] == '"' && close != [] && close[0] == '<'
    ensures var tail := mid + caption + close + rest;
      && open <= open + uri + mid + caption + close + rest
      && (open + uri + mid + caption + close + rest)[|open|..] == uri + tail
      && TakeUntil(uri + tail, '"') == (uri, tail)
      && mid <= tail && tail[|mid|..] == caption + (close + rest)
      && TakeUntil(caption + (close + rest), '<') == (caption, close + rest)
      && close <= close + rest && (close + rest)[|close|..] == rest
  {
    var tail := mid + caption + close + rest;
    assert open + uri + mid + caption + close + rest == open + (uri + tail);
    assert tail == mid + (caption + (close + rest));
    TakeUntilSplit(uri, tail, '"');
    TakeUntilSplit(caption, close + rest, '<');
  }

  /** One item followed by more markup reads back as its link followed by what the rest reads as. */
  lemma ParseItemsCons(c: Chunk, rest: string)
    requires HasLink(c) && MarkupSafe(c)
    ensures ParseItems(LinkItem(c) + rest) ==
      match ParseItems(rest)
      case None => None
      case Some(links) => Some([Link(Uri(c), Label(c))] + links)
  {
    ReadItem(ItemOpen, Uri(c), ItemMid, Label(c), ItemClose, rest);
  }

  /** The items read back as exactly the kept chunks' links, one per chunk, in order. */
  lemma {:induction false} ParseItemsRendered(links: seq<Chunk>)
    requires AllLinked(links)
    requires forall c :: c in links ==> MarkupSafe(c)
    ensures ParseItems(Items(links)) == Some(Rendered(links))
  {
    if links != [] {
      ParseItemsRendered(links[1..]);
      ParseItemsCons(links[0], Items(links[1..]));
    }
  }

  /**
   * Whenever some chunk carries a link, what follows the unchanged reply
   * text reads back as one item per linked chunk, in input order, each with
   * `href` the chunk's uri and text its title, or its uri when the title is
   * absent or empty.
   */
  lemma ReplySourcesReadBack(text: string, chunks: Option<seq<Chunk>>)
    requires Links(chunks) != []
    requires forall c :: c in Links(chunks) ==> MarkupSafe(c)
    ensures var r := ReplyHtml(text, chunks);
      && text <= r
      && ParseSources(r[|text|..]) == Some(Rendered(Links(chunks)))
  {
    var links := Links(chunks);
    var r := ReplyHtml(text, chunks);
    var block := SourcesBlock(links);
    assert r[|text|..] == block;
    assert block[|SourcesHeader|..|block| - |SourcesFooter|] == Items(links);
    assert block[|block| - |SourcesFooter|..] == SourcesFooter;
    ParseItemsRendered(links);
  }
}
