/**
 * nico.rss.XmlReader: a UTF-8 reader that silently drops every character outside the Char
 * production of XML 1.0 (production [2] in section 2.2 of the XML 1.0 Recommendation), so a
 * feed with stray control characters can still be parsed. The stream underneath is a given
 * sequence of UTF-16 code units; how far one buffered read of it reaches is a parameter.
 */
module XmlFilter {
  /** A Java char: one UTF-16 code unit. */
  type Char16 = c: int | 0 <= c < 0x1_0000

  /** valid: the XML 1.0 Char production, as a predicate on one int. */
  predicate Valid(c: int) {
    c == 0x9 || c == 0xA || c == 0xD ||
    (0x20 <= c <= 0xD7FF) || (0xE000 <= c <= 0xFFFD) || (0x1_0000 <= c <= 0x10_FFFF)
  }

  /**
   * On a single code unit the last range can never apply: surrogates and the two
   * non-characters U+FFFE and U+FFFF are always rejected, everything else from U+0020 up
   * is kept, and below U+0020 only tab, line feed and carriage return are kept.
   */
  lemma ValidCodeUnit(c: Char16)
    ensures Valid(c) <==> c == 0x9 || c == 0xA || c == 0xD ||
                          (0x20 <= c && !(0xD800 <= c <= 0xDFFF) && c != 0xFFFE && c != 0xFFFF)
  {
  }

  /** The valid code units of s, in their original order. */
  function Filter(s: seq<int>): (r: seq<int>)
    ensures |r| <= |s|
    ensures forall k :: 0 <= k < |r| ==> Valid(r[k])
  {
    if s == [] then [] else (if Valid(s[0]) then [s[0]] else []) + Filter(s[1..])
  }

  /** Filtering works piecewise, so it keeps the order of what it keeps. */
  lemma {:induction false} FilterAppend(a: seq<int>, b: seq<int>)
    ensures Filter(a + b) == Filter(a) + Filter(b)
  {
    if a == [] {
      assert a + b == b;
    } else {
      assert (a + b)[1..] == a[1..] + b;
      FilterAppend(a[1..], b);
    }
  }

  /** Exactly the valid members of s survive. */
  lemma {:induction false} FilterMembers(s: seq<int>, c: int)
    ensures c in Filter(s) <==> c in s && Valid(c)
  {
    if s != [] {
      FilterMembers(s[1..], c);
      assert s == [s[0]] + s[1..];
    }
  }

  /** A filtered sequence passes the filter unchanged. */
  lemma {:induction false} FilterIdempotent(s: seq<int>)
    ensures Filter(Filter(s)) == Filter(s)
  {
    if s != [] {
      FilterIdempotent(s[1..]);
      var head := if Valid(s[0]) then [s[0]] else [];
      FilterAppend(head, Filter(s[1..]));
      if Valid(s[0]) {
        assert Filter(head) == head by {
          assert head[1..] == [];
        }
      }
    }
  }

  /** A supplementary character, as the surrogate pair that carries it, is dropped. */
  lemma SurrogatePairDropped(high: Char16, low: Char16)
    requires 0xD800 <= high <= 0xDBFF && 0xDC00 <= low <= 0xDFFF
    ensures Filter([high, low]) == []
  {
    assert [high, low][1..] == [low];
  }

  /**
   * The number of code units one underlying read(tbuf, 0, length) delivers: nothing asked,
   * nothing read; -1 at the end of the stream; otherwise between 1 and what was asked and
   * what is left, as far as `burst` (how much the decoder had ready) reaches.
   */
  function UnderlyingCount(available: nat, length: int, burst: int): (n: int)
    ensures length <= 0 ==> n == 0
    ensures length > 0 && available == 0 ==> n == -1
    ensures length > 0 && available > 0 ==> 1 <= n <= length && n <= available
    ensures length > 0 && available > 0 && 1 <= burst <= length && burst <= available ==> n == burst
  {
    if length <= 0 then 0
    else if available == 0 then -1
    else
      var most := if length <= available then length else available;
      if burst < 1 then 1 else if burst > most then most else burst
  }

  /** Where the first valid code unit of s is, or |s| when there is none. */
  function FirstValid(s: seq<int>): (k: nat)
    ensures k <= |s|
    ensures forall j :: 0 <= j < k ==> !Valid(s[j])
    ensures k < |s| ==> Valid(s[k])
    ensures k < |s| ==> Filter(s) == [s[k]] + Filter(s[k + 1..])
    ensures k == |s| <==> Filter(s) == []
  {
    if s == [] then 0
    else if Valid(s[0]) then 0
    else
      var k := FirstValid(s[1..]);
      assert k < |s[1..]| ==> s[1..][k + 1..] == s[k + 2..];
      k + 1
  }

  class XmlReader {
    /** What the underlying UTF-8 reader has yet to deliver. */
    var input: seq<Char16>

    constructor (stream: seq<Char16>)
      ensures input == stream
    {
      input := stream;
    }

    /**
     * read(): skip invalid code units; return the first valid one, or -1 at the end of the
     * stream. It consumes exactly the first character that passes the filter.
     */
    method Read() returns (c: int)
      modifies this
      ensures var k := FirstValid(old(input));
              if k == |old(input)| then c == -1 && input == []
              else c == old(input)[k] && input == old(input)[k + 1..]
      ensures c == -1 ==> Filter(old(input)) == []
      ensures c != -1 ==> Filter(old(input)) == [c] + Filter(input)
    {
      ghost var k := FirstValid(old(input));
      while input != []
        invariant |input| <= |old(input)|
        invariant input == old(input)[|old(input)| - |input|..]
        invariant |old(input)| - |input| <= k
        decreases |input|
      {
        c := input[0];
        input := input[1..];
        if Valid(c) {
          return;
        }
      }
      c := -1;
    }

    /** The underlying read(tbuf, 0, tbuf.Length) of InputStreamReader. */
    method Fill(tbuf: array<Char16>, burst: int) returns (n: int)
      modifies this, tbuf
      ensures n == UnderlyingCount(|old(input)|, tbuf.Length, burst)
      ensures n <= 0 ==> input == old(input) && tbuf[..] == old(tbuf[..])
      ensures n > 0 ==> tbuf[..n] == old(input)[..n] && input == old(input)[n..]
    {
      n := UnderlyingCount(|input|, tbuf.Length, burst);
      if n > 0 {
        forall k | 0 <= k < n {
          tbuf[k] := input[k];
        }
        input := input[n..];
      }
    }

    /**
     * The copying loop of read(cbuf, offset, length): the valid code units among the first
     * n of tbuf go, in order, to cbuf from `offset` on; nothing else in cbuf changes.
     */
    static method Compact(tbuf: array<Char16>, n: int, cbuf: array<Char16>, offset: int) returns (pos: int)
      requires tbuf != cbuf
      requires 0 <= n <= tbuf.Length && 0 <= offset && offset + n <= cbuf.Length
      modifies cbuf
      ensures pos == |Filter(tbuf[..n])| && cbuf[offset..offset + pos] == Filter(tbuf[..n])
      ensures forall k :: 0 <= k < cbuf.Length && !(offset <= k < offset + pos) ==> cbuf[k] == old(cbuf[k])
    {
      pos := 0;
      var i := 0;
      while i < n
        invariant 0 <= i <= n && 0 <= pos <= i
        invariant pos == |Filter(tbuf[..i])|
        invariant cbuf[offset..offset + pos] == Filter(tbuf[..i])
        invariant forall k :: 0 <= k < cbuf.Length && !(offset <= k < offset + pos) ==> cbuf[k] == old(cbuf[k])
      {
        assert tbuf[..i + 1] == tbuf[..i] + [tbuf[i]];
        FilterAppend(tbuf[..i], [tbuf[i]]);
        assert [tbuf[i]][1..] == [];
        if Valid(tbuf[i]) {
          cbuf[offset + pos] := tbuf[i];
          pos := pos + 1;
        }
        i := i + 1;
      }
    }

    /**
     * read(cbuf, offset, length): read a chunk into a fresh buffer of `length` code units,
     * then copy its valid code units, in order, to cbuf from `offset` on and return how
     * many there were; 0 and -1 from the underlying read are passed through.
     */
    method ReadChunk(cbuf: array<Char16>, offset: int, length: int, burst: int) returns (pos: int)
      requires 0 <= offset && 0 <= length && offset + length <= cbuf.Length
      modifies this, cbuf
      ensures var count := UnderlyingCount(|old(input)|, length, burst);
              && (count <= 0 ==> pos == count && input == old(input) && cbuf[..] == old(cbuf[..]))
              && (count > 0 ==>
                    && pos == |Filter(old(input)[..count])|
                    && cbuf[offset..offset + pos] == Filter(old(input)[..count])
                    && input == old(input)[count..])
      ensures pos <= length
      ensures forall k :: 0 <= k < cbuf.Length && !(offset <= k < offset + pos) ==> cbuf[k] == old(cbuf[k])
    {
      var tbuf := new Char16[length];
      var len := Fill(tbuf, burst);
      if len <= 0 {
        return len;
      }
      pos := Compact(tbuf, len, cbuf, offset);
    }
  }
}
