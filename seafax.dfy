/** The streaming RSS reader of the SEAFAX headline viewer
    (examples/seafax.py): a response body is read one byte at a time and
    a tiny XML scanner turns each `group_by` element into a dictionary of
    the accepted child tags' text. */
module SeaFax {
  import opened Wrappers
  import opened PySemantics

  type byte = bv8
  type bytes = seq<byte>

  const LT: byte := 0x3C       // '<'
  const GT: byte := 0x3E       // '>'
  const QUESTION: byte := 0x3F // '?'
  const BANG: byte := 0x21     // '!'
  const SLASH: byte := 0x2F    // '/'
  const LBRACKET: byte := 0x5B // '['
  const RBRACKET: byte := 0x5D // ']'
  const SPACE: byte := 0x20    // ' '

  // ---------------------------------------------------------------
  // The stream

  /** `stream.read(1)` at position pos: one byte, or nothing at the end. */
  function Next(data: bytes, pos: nat): (c: bytes)
    requires pos <= |data|
    ensures |c| <= 1 && (|c| == 1 <==> pos < |data|)
  {
    if pos < |data| then [data[pos]] else []
  }

  /** A response body and how far it has been read. */
  class Stream {
    const data: bytes
    var pos: nat

    predicate Valid()
      reads this
    {
      pos <= |data|
    }

    constructor (body: bytes)
      ensures data == body && pos == 0 && Valid()
    {
      data := body;
      pos := 0;
    }

    method Read() returns (c: bytes)
      requires Valid()
      modifies this
      ensures Valid() && c == Next(data, old(pos)) && pos == old(pos) + |c|
    {
      if pos < |data| {
        c := [data[pos]];
        pos := pos + 1;
      } else {
        c := [];
      }
    }
  }

  /** What `read_until` returns and where it leaves the stream. */
  datatype Scan = Scan(found: Option<bytes>, pos: nat)

  /** `read_until(stream, find)` from position pos: the bytes before the
      first `find` with the stream just past it, or None with the stream
      at its end when `find` never comes. */
  function ScanUntil(data: bytes, pos: nat, find: byte): (r: Scan)
    requires pos <= |data|
    ensures pos <= r.pos <= |data|
    ensures r.found.Some? ==> pos < r.pos
    decreases |data| - pos
  {
    if pos == |data| then Scan(None, pos)
    else if data[pos] == find then Scan(Some([]), pos + 1)
    else Prepend([data[pos]], ScanUntil(data, pos + 1, find))
  }

  function Prepend(pre: bytes, r: Scan): Scan
  {
    Scan(if r.found.Some? then Some(pre + r.found.value) else None, r.pos)
  }

  /** The bytes read are what was found followed by the delimiter, with no
      delimiter inside; or, when nothing is found, the delimiter does not
      occur in the rest of the stream at all. */
  lemma {:induction false} ScanUntilMeaning(data: bytes, pos: nat, find: byte)
    requires pos <= |data|
    ensures var r := ScanUntil(data, pos, find);
      (r.found.Some? ==> data[pos..r.pos] == r.found.value + [find] && find !in r.found.value)
      && (r.found.None? ==> r.pos == |data| && find !in data[pos..])
    decreases |data| - pos
  {
    if pos < |data| && data[pos] != find {
      ScanUntilMeaning(data, pos + 1, find);
      var r := ScanUntil(data, pos + 1, find);
      assert data[pos..] == [data[pos]] + data[pos + 1..];
      if r.found.Some? {
        assert data[pos..r.pos] == [data[pos]] + data[pos + 1..r.pos];
      }
    }
  }

  /** Conversely, a run of k bytes free of `find` followed by `find` is
      exactly what `read_until` hands back. */
  lemma {:induction false} ScanUntilFinds(data: bytes, pos: nat, find: byte, k: nat)
    requires pos + k < |data| && data[pos + k] == find && find !in data[pos..pos + k]
    ensures ScanUntil(data, pos, find) == Scan(Some(data[pos..pos + k]), pos + k + 1)
    decreases k
  {
    if k == 0 {
      assert data[pos..pos + k] == [];
    } else {
      assert data[pos..pos + k][0] == data[pos];
      assert data[pos + 1..pos + k] == data[pos..pos + k][1..];
      ScanUntilFinds(data, pos + 1, find, k - 1);
      assert data[pos..pos + k] == [data[pos]] + data[pos + 1..pos + k];
    }
  }

  /** The same, for a run known by its contents. */
  lemma ScanUntilRest(data: bytes, pos: nat, find: byte, rest: bytes)
    requires pos + |rest| < |data| && data[pos..pos + |rest|] == rest && data[pos + |rest|] == find && find !in rest
    ensures ScanUntil(data, pos, find) == Scan(Some(rest), pos + |rest| + 1)
  {
    ScanUntilFinds(data, pos, find, |rest|);
  }

  lemma PrependNothing(r: Scan)
    ensures Prepend([], r) == r
  {
    if r.found.Some? {
      assert [] + r.found.value == r.found.value;
    }
  }

  lemma PrependTwice(a: bytes, b: bytes, r: Scan)
    ensures Prepend(a + b, r) == Prepend(a, Prepend(b, r))
  {
    if r.found.Some? {
      assert a + b + r.found.value == a + (b + r.found.value);
    }
  }

  /** `read_until`: the loop reads a byte at a time, collecting until the
      delimiter. */
  method ReadUntil(s: Stream, find: byte) returns (found: Option<bytes>)
    requires s.Valid()
    modifies s
    ensures s.Valid() && Scan(found, s.pos) == ScanUntil(s.data, old(s.pos), find)
  {
    var result: bytes := [];
    ghost var target := ScanUntil(s.data, s.pos, find);
    PrependNothing(target);
    while true
      invariant s.Valid() && target == Prepend(result, ScanUntil(s.data, s.pos, find))
      decreases |s.data| - s.pos
    {
      ghost var here := s.pos;
      var c := s.Read();
      if |c| == 0 {
        return None;
      }
      if c == [find] {
        assert ScanUntil(s.data, here, find) == Scan(Some([]), s.pos);
        assert result + [] == result;
        return Some(result);
      }
      PrependTwice(result, c, ScanUntil(s.data, s.pos, find));
      result := result + c;
    }
  }

  /** `discard_until`: the same reading, result thrown away. */
  method DiscardUntil(s: Stream, find: byte)
    requires s.Valid()
    modifies s
    ensures s.Valid() && s.pos == ScanUntil(s.data, old(s.pos), find).pos
  {
    var _ := ReadUntil(s, find);
  }

  // ---------------------------------------------------------------
  // The XML scanner

  /** `current_tag.split(b" ")[0]`: the bytes before the first space. */
  function FirstField(b: bytes): bytes
  {
    if |b| == 0 || b[0] == SPACE then []
    else [b[0]] + FirstField(b[1..])
  }

  /** The name is a prefix with no space in it, ending at the first space
      or at the end. */
  lemma {:induction false} FirstFieldMeaning(b: bytes)
    ensures var r := FirstField(b);
      |r| <= |b| && r == b[..|r|] && SPACE !in r && (|r| < |b| ==> b[|r|] == SPACE)
  {
    if |b| > 0 && b[0] != SPACE {
      FirstFieldMeaning(b[1..]);
      var r := FirstField(b[1..]);
      assert b[1..][..|r|] == b[1..|r| + 1];
      assert b == [b[0]] + b[1..];
    }
  }

  /** `current_tag.endswith(b"/")` */
  predicate SelfClosing(b: bytes)
  {
    |b| > 0 && b[|b| - 1] == SLASH
  }

  type Item = map<bytes, bytes>

  /** The generator's locals: the open-tag stack, the text buffer (None
      once a CDATA section ran off the end of the stream), the count of
      groups yielded, the dictionary being filled, and what was yielded. */
  datatype Parser = Parser(tag: seq<bytes>, text: Option<bytes>, count: int, current: Item, items: seq<Item>)

  const Start := Parser([], Some([]), 0, map[], [])

  /** One turn of the main loop: go on from a new position, or stop with
      what was yielded and, perhaps, the exception raised. */
  datatype Step = Go(pos: nat, p: Parser) | Stop(pos: nat, items: seq<Item>, raised: Option<Exception>)

  function ParseStep(data: bytes, pos: nat, p: Parser, accept: seq<bytes>, groupBy: bytes, maxItems: int): (r: Step)
    requires pos <= |data|
    ensures r.Go? ==> pos < r.pos <= |data|
    ensures r.Stop? ==> pos <= r.pos <= |data|
  {
    if pos == |data| then Stop(pos, p.items, None)
    else if data[pos] != LT then
      // `text += char`, where a None text raises TypeError
      if p.text.None? then Stop(pos + 1, p.items, Some(TypeError))
      else Go(pos + 1, p.(text := Some(p.text.value + [data[pos]])))
    else
      var nc := Next(data, pos + 1);
      var q := pos + 1 + |nc|;
      if nc == [QUESTION] then Go(ScanUntil(data, q, GT).pos, p)
      else if nc == [BANG] then CDataStep(data, q, p)
      else if nc == [SLASH] then CloseStep(data, q, p, accept, groupBy, maxItems)
      else OpenStep(data, q, nc, p)
  }

  /** After `<!`: skip a byte, skip to the '[', take the text up to the
      ']' and skip to the '>'. */
  function CDataStep(data: bytes, q: nat, p: Parser): (r: Step)
    requires q <= |data|
    ensures r.Go? && q <= r.pos <= |data|
  {
    var q1 := q + |Next(data, q)|;
    var q2 := ScanUntil(data, q1, LBRACKET).pos;
    var t := ScanUntil(data, q2, RBRACKET);
    Go(ScanUntil(data, t.pos, GT).pos, p.(text := t.found))
  }

  /** After `</`: skip to the '>' and close the innermost open tag. */
  function CloseStep(data: bytes, q: nat, p: Parser, accept: seq<bytes>, groupBy: bytes, maxItems: int): (r: Step)
    requires q <= |data|
    ensures q <= r.pos <= |data|
  {
    var q1 := ScanUntil(data, q, GT).pos;
    if |p.tag| == 0 then Stop(q1, p.items, Some(IndexError))
    else
      var top := p.tag[|p.tag| - 1];
      var popped := p.tag[..|p.tag| - 1];
      if top in accept then
        // `text.decode` on None raises AttributeError
        if p.text.None? then Stop(q1, p.items, Some(AttributeError))
        else Go(q1, p.(current := p.current[top := p.text.value], tag := popped, text := Some([])))
      else if top == groupBy then
        var items := p.items + [p.current];
        if p.count + 1 == maxItems then Stop(q1, items, None)
        else Go(q1, Parser(popped, Some([]), p.count + 1, map[], items))
      else Go(q1, p.(tag := popped, text := Some([])))
  }

  /** After `<` and its next byte nc: read the rest of the tag up to the
      '>' and push its name unless it closes itself. */
  function OpenStep(data: bytes, q: nat, nc: bytes, p: Parser): (r: Step)
    requires q <= |data|
    ensures q <= r.pos <= |data|
  {
    var ct := ScanUntil(data, q, GT);
    // `None.endswith` raises AttributeError
    if ct.found.None? then Stop(ct.pos, p.items, Some(AttributeError))
    else if SelfClosing(ct.found.value) then Go(ct.pos, p)
    else Go(ct.pos, p.(tag := p.tag + [nc + FirstField(ct.found.value)], text := Some([])))
  }

  /** What `list(parse_xml_stream(...))` sees: the dictionaries yielded, the
      exception that ended it if any, and where the stream was left. */
  datatype Outcome = Outcome(items: seq<Item>, raised: Option<Exception>, pos: nat)

  function Parse(data: bytes, pos: nat, p: Parser, accept: seq<bytes>, groupBy: bytes, maxItems: int): (r: Outcome)
    requires pos <= |data|
    ensures pos <= r.pos <= |data|
    decreases |data| - pos
  {
    match ParseStep(data, pos, p, accept, groupBy, maxItems)
    case Go(q, p1) => Parse(data, q, p1, accept, groupBy, maxItems)
    case Stop(q, items, e) => Outcome(items, e, q)
  }

  /** One turn of `parse_xml_stream`'s loop, from reading a byte to the
      `continue`, the `yield` that ends it or the exception. */
  method Turn(s: Stream, p: Parser, accept: seq<bytes>, groupBy: bytes, maxItems: int) returns (r: Step)
    requires s.Valid()
    modifies s
    ensures s.Valid() && r == ParseStep(s.data, old(s.pos), p, accept, groupBy, maxItems) && s.pos == r.pos
  {
    var ch := s.Read();
    if |ch| == 0 {
      return Stop(s.pos, p.items, None);
    }
    if ch == [LT] {
      var nextChar := s.Read();
      if nextChar == [QUESTION] {
        DiscardUntil(s, GT);
        r := Go(s.pos, p);
      } else if nextChar == [BANG] {
        r := CDataTurn(s, p);
      } else if nextChar == [SLASH] {
        r := CloseTurn(s, p, accept, groupBy, maxItems);
      } else {
        r := OpenTurn(s, nextChar, p);
      }
    } else if p.text.None? {
      r := Stop(s.pos, p.items, Some(TypeError));
    } else {
      r := Go(s.pos, p.(text := Some(p.text.value + ch)));
    }
  }

  /** The `<!` branch: CDATA. */
  method CDataTurn(s: Stream, p: Parser) returns (r: Step)
    requires s.Valid()
    modifies s
    ensures s.Valid() && r == CDataStep(s.data, old(s.pos), p) && s.pos == r.pos
  {
    var _ := s.Read();
    DiscardUntil(s, LBRACKET);
    var text := ReadUntil(s, RBRACKET);
    DiscardUntil(s, GT);
    r := Go(s.pos, p.(text := text));
  }

  /** The `</` branch: a closing tag. */
  method CloseTurn(s: Stream, p: Parser, accept: seq<bytes>, groupBy: bytes, maxItems: int) returns (r: Step)
    requires s.Valid()
    modifies s
    ensures s.Valid() && r == CloseStep(s.data, old(s.pos), p, accept, groupBy, maxItems) && s.pos == r.pos
  {
    var tag, text, count, current, items := p.tag, p.text, p.count, p.current, p.items;
    var _ := ReadUntil(s, GT);
    if |tag| == 0 {
      return Stop(s.pos, items, Some(IndexError));
    }
    var topTag := tag[|tag| - 1];
    if topTag in accept {
      if text.None? {
        return Stop(s.pos, items, Some(AttributeError));
      }
      current := current[topTag := text.value];
    } else if topTag == groupBy {
      items := items + [current];
      current := map[];
      count := count + 1;
      if count == maxItems {
        return Stop(s.pos, items, None);
      }
    }
    tag := tag[..|tag| - 1];
    text := Some([]);
    r := Go(s.pos, Parser(tag, text, count, current, items));
  }

  /** Any other `<`: an opening or self-closing tag. */
  method OpenTurn(s: Stream, nextChar: bytes, p: Parser) returns (r: Step)
    requires s.Valid()
    modifies s
    ensures s.Valid() && r == OpenStep(s.data, old(s.pos), nextChar, p) && s.pos == r.pos
  {
    var currentTag := ReadUntil(s, GT);
    if currentTag.None? {
      return Stop(s.pos, p.items, Some(AttributeError));
    }
    if SelfClosing(currentTag.value) {
      r := Go(s.pos, p);
    } else {
      r := Go(s.pos, p.(tag := p.tag + [nextChar + FirstField(currentTag.value)], text := Some([])));
    }
  }

  /** `parse_xml_stream(s, accept_tags, group_by, max_items)` run to the end
      by `list`: the generator's locals start empty and each turn of the
      loop moves them on. */
  method ParseXmlStream(s: Stream, accept: seq<bytes>, groupBy: bytes, maxItems: int)
    returns (items: seq<Item>, raised: Option<Exception>)
    requires s.Valid()
    modifies s
    ensures s.Valid() && Outcome(items, raised, s.pos) == Parse(s.data, old(s.pos), Start, accept, groupBy, maxItems)
  {
    var p := Start;
    ghost var target := Parse(s.data, s.pos, p, accept, groupBy, maxItems);
    while true
      invariant s.Valid() && Parse(s.data, s.pos, p, accept, groupBy, maxItems) == target
      decreases |s.data| - s.pos
    {
      var r := Turn(s, p, accept, groupBy, maxItems);
      if r.Stop? {
        return r.items, r.raised;
      }
      p := r.p;
    }
  }

  // ---------------------------------------------------------------
  // What a turn of the loop does with each kind of markup
  //
  // Each lemma takes the markup as `read_until` delivers it; with
  // ScanUntilRest a stretch of the stream with no delimiter in it followed
  // by the delimiter is exactly such a delivery.

  /** An opening tag: `<`, a byte nc other than '?', '!' or '/', then the
      rest of the tag as `read_until(s, b">")` returns it. The name (nc and
      the rest up to the first space) is pushed and the text emptied; a tag
      whose rest ends in '/' closes itself and changes nothing. */
  lemma OpenTag(data: bytes, pos: nat, nc: byte, rest: bytes, p: Parser, accept: seq<bytes>, groupBy: bytes, maxItems: int)
    requires pos + 1 < |data| && data[pos] == LT && data[pos + 1] == nc
    requires nc != QUESTION && nc != BANG && nc != SLASH
    requires ScanUntil(data, pos + 2, GT) == Scan(Some(rest), pos + |rest| + 3)
    ensures var r := ParseStep(data, pos, p, accept, groupBy, maxItems);
      r.Go? && r.pos == pos + |rest| + 3
      && (SelfClosing(rest) ==> r.p == p)
      && (!SelfClosing(rest) ==> r.p == p.(tag := p.tag + [[nc] + FirstField(rest)], text := Some([])))
  {
    OpenDispatch(data, pos, p, accept, groupBy, maxItems);
    OpenStepOf(data, pos + 2, [nc], rest, p);
  }

  lemma OpenStepOf(data: bytes, q: nat, nc: bytes, rest: bytes, p: Parser)
    requires q <= |data| && ScanUntil(data, q, GT) == Scan(Some(rest), q + |rest| + 1)
    ensures OpenStep(data, q, nc, p)
      == Go(q + |rest| + 1, if SelfClosing(rest) then p else p.(tag := p.tag + [nc + FirstField(rest)], text := Some([])))
  {
  }

  lemma OpenDispatch(data: bytes, pos: nat, p: Parser, accept: seq<bytes>, groupBy: bytes, maxItems: int)
    requires pos + 1 < |data| && data[pos] == LT && data[pos + 1] != QUESTION && data[pos + 1] != BANG && data[pos + 1] != SLASH
    ensures ParseStep(data, pos, p, accept, groupBy, maxItems) == OpenStep(data, pos + 2, [data[pos + 1]], p)
  {
    var n := Next(data, pos + 1);
    assert n == [data[pos + 1]] && n[0] == data[pos + 1];
    assert n != [QUESTION] && n != [BANG] && n != [SLASH];
  }

  /** A closing tag `</...>`, read up to its '>', pops the stack and empties
      the text. Closing an accepted tag first files the text under its
      name; closing `group_by` yields the dictionary and starts a fresh one,
      and the loop ends right there once that was the max_items-th group. */
  lemma CloseTag(data: bytes, pos: nat, end: nat, p: Parser, accept: seq<bytes>, groupBy: bytes, maxItems: int)
    requires pos + 1 < |data| && data[pos] == LT && data[pos + 1] == SLASH
    requires ScanUntil(data, pos + 2, GT).pos == end
    requires |p.tag| > 0 && p.text.Some?
    ensures var r := ParseStep(data, pos, p, accept, groupBy, maxItems);
      var top := p.tag[|p.tag| - 1];
      var popped := p.tag[..|p.tag| - 1];
      (top in accept ==> r == Go(end, p.(current := p.current[top := p.text.value], tag := popped, text := Some([]))))
      && (top !in accept && top == groupBy && p.count + 1 == maxItems ==> r == Stop(end, p.items + [p.current], None))
      && (top !in accept && top == groupBy && p.count + 1 != maxItems ==>
            r == Go(end, Parser(popped, Some([]), p.count + 1, map[], p.items + [p.current])))
      && (top !in accept && top != groupBy ==> r == Go(end, p.(tag := popped, text := Some([]))))
  {
    assert Next(data, pos + 1) == [SLASH];
  }

  /** A closing tag with nothing open raises IndexError (`tag[-1]`). */
  lemma CloseWithEmptyStack(data: bytes, pos: nat, p: Parser, accept: seq<bytes>, groupBy: bytes, maxItems: int)
    requires pos + 2 <= |data| && data[pos] == LT && data[pos + 1] == SLASH && p.tag == []
    ensures var r := ParseStep(data, pos, p, accept, groupBy, maxItems);
      r.Stop? && r.items == p.items && r.raised == Some(IndexError)
  {
  }

  /** `<?...>`, read up to its '>', is skipped without touching the
      parser's state. */
  lemma ProcessingInstruction(data: bytes, pos: nat, end: nat, p: Parser, accept: seq<bytes>, groupBy: bytes, maxItems: int)
    requires pos + 1 < |data| && data[pos] == LT && data[pos + 1] == QUESTION
    requires ScanUntil(data, pos + 2, GT).pos == end
    ensures ParseStep(data, pos, p, accept, groupBy, maxItems) == Go(end, p)
  {
    assert Next(data, pos + 1) == [QUESTION];
  }

  /** `<![CDATA[content]]>`: after `<!` and one more byte, the stream is
      skipped to the next '[' (position c), the text becomes what comes
      before the next ']' (ending at t), and the rest is skipped to the
      '>' (ending at e); nothing else changes. */
  lemma CData(data: bytes, pos: nat, c: nat, t: nat, e: nat, content: bytes,
              p: Parser, accept: seq<bytes>, groupBy: bytes, maxItems: int)
    requires pos + 3 <= c <= |data| && t <= |data|
    requires data[pos] == LT && data[pos + 1] == BANG
    requires ScanUntil(data, pos + 3, LBRACKET).pos == c
    requires ScanUntil(data, c, RBRACKET) == Scan(Some(content), t)
    requires ScanUntil(data, t, GT).pos == e
    ensures ParseStep(data, pos, p, accept, groupBy, maxItems) == Go(e, p.(text := Some(content)))
  {
    assert CDataStep(data, pos + 2, p) == Go(e, p.(text := Some(content)));
    assert Next(data, pos + 1) == [BANG];
  }

  /** For the usual spelling the positions are as expected: with
      `CDATA[` (word `CDATA`) and `]]>` (tail `]`), the content is taken
      whole. */
  lemma CDataLaidOut(data: bytes, pos: nat, word: bytes, content: bytes, tail: bytes)
    requires pos + |word| + |content| + |tail| + 6 <= |data|
    requires data[pos + 3..pos + 3 + |word|] == word && data[pos + 3 + |word|] == LBRACKET
    requires var c := pos + |word| + 4;
      data[c..c + |content|] == content && data[c + |content|] == RBRACKET
    requires var t := pos + |word| + |content| + 5;
      data[t..t + |tail|] == tail && data[t + |tail|] == GT
    requires LBRACKET !in word && RBRACKET !in content && GT !in tail
    ensures var c := pos + |word| + 4;
      var t := c + |content| + 1;
      ScanUntil(data, pos + 3, LBRACKET).pos == c
      && ScanUntil(data, c, RBRACKET) == Scan(Some(content), t)
      && ScanUntil(data, t, GT).pos == t + |tail| + 1
  {
    var c := pos + |word| + 4;
    var t := c + |content| + 1;
    ScanUntilRest(data, pos + 3, LBRACKET, word);
    ScanUntilRest(data, c, RBRACKET, content);
    ScanUntilRest(data, t, GT, tail);
  }

  // ---------------------------------------------------------------
  // Properties of a whole run

  predicate KeysAccepted(m: Item, accept: seq<bytes>)
  {
    forall k :: k in m ==> k in accept
  }

  predicate Sound(p: Parser, accept: seq<bytes>, maxItems: int)
  {
    KeysAccepted(p.current, accept)
    && (forall i :: 0 <= i < |p.items| ==> KeysAccepted(p.items[i], accept))
    && p.count == |p.items| && (maxItems >= 1 ==> p.count < maxItems)
  }

  lemma StepSound(data: bytes, pos: nat, p: Parser, accept: seq<bytes>, groupBy: bytes, maxItems: int)
    requires pos <= |data| && Sound(p, accept, maxItems)
    ensures var r := ParseStep(data, pos, p, accept, groupBy, maxItems);
      (r.Go? ==> Sound(r.p, accept, maxItems))
      && (r.Stop? ==> (forall i :: 0 <= i < |r.items| ==> KeysAccepted(r.items[i], accept))
                      && (maxItems >= 1 ==> |r.items| <= maxItems)
                      && (r.raised.None? && (maxItems < 1 || |r.items| < maxItems) ==> r.pos == |data|))
  {
  }

  /** Every yielded dictionary holds only accepted tags; with max_items at
      least 1 no more than max_items are yielded; and a run that neither
      raised nor filled up read the stream to its end. */
  lemma {:induction false} ParseSound(data: bytes, pos: nat, p: Parser, accept: seq<bytes>, groupBy: bytes, maxItems: int)
    requires pos <= |data| && Sound(p, accept, maxItems)
    ensures var r := Parse(data, pos, p, accept, groupBy, maxItems);
      (forall i :: 0 <= i < |r.items| ==> KeysAccepted(r.items[i], accept))
      && (maxItems >= 1 ==> |r.items| <= maxItems)
      && (r.raised.None? && (maxItems < 1 || |r.items| < maxItems) ==> r.pos == |data|)
    decreases |data| - pos
  {
    StepSound(data, pos, p, accept, groupBy, maxItems);
    match ParseStep(data, pos, p, accept, groupBy, maxItems)
    case Go(q, p1) => ParseSound(data, q, p1, accept, groupBy, maxItems);
    case Stop(_, _, _) =>
  }

  /** The run from the start, as `get_rss` makes it (max_items 7). */
  lemma RssRunSound(data: bytes, accept: seq<bytes>, groupBy: bytes)
    ensures var r := Parse(data, 0, Start, accept, groupBy, 7);
      |r.items| <= 7 && (forall i :: 0 <= i < |r.items| ==> KeysAccepted(r.items[i], accept))
      && (r.raised.None? && |r.items| < 7 ==> r.pos == |data|)
  {
    ParseSound(data, 0, Start, accept, groupBy, 7);
  }
}
