/** Header maps and the carrier through which the trace-context propagator reads request
    headers and writes response headers. A header map is modelled as a map from the
    (lower-case) header name to the value's bytes; one value per name. */
module Headers {
  import opened Http

  type Entries = map<string, seq<byte>>

  // ------------------------------------------------------------------ names

  /** `HeaderName::from_bytes` admits a non-empty token, upper-case letters included. */
  predicate ValidName(key: string)
  {
    IsToken(key)
  }

  function LowerChar(c: char): char
  {
    if 'A' <= c <= 'Z' then (c as int + 32) as char else c
  }

  /** The crate stores a header name lower-cased. */
  function Normalize(key: string): (r: string)
    ensures |r| == |key|
    ensures forall i :: 0 <= i < |r| ==> r[i] == LowerChar(key[i])
  {
    if key == [] then [] else [LowerChar(key[0])] + Normalize(key[1..])
  }

  predicate IsNormalName(key: string)
  {
    ValidName(key) && Normalize(key) == key
  }

  // ----------------------------------------------------------------- values

  /** The UTF-8 encoding of one character, as a Rust `str` stores it. */
  function Utf8Char(c: char): (r: seq<byte>)
    ensures 1 <= |r| <= 4
    ensures c as int < 128 ==> r == [c as int as byte]
    ensures c as int >= 128 ==> forall i :: 0 <= i < |r| ==> r[i] >= 128
  {
    var cp := c as int;
    if cp < 0x80 then [cp as byte]
    else if cp < 0x800 then [(0xC0 + cp / 0x40) as byte, (0x80 + cp % 0x40) as byte]
    else if cp < 0x10000 then
      [(0xE0 + cp / 0x1000) as byte, (0x80 + cp / 0x40 % 0x40) as byte, (0x80 + cp % 0x40) as byte]
    else
      [(0xF0 + cp / 0x40000) as byte, (0x80 + cp / 0x1000 % 0x40) as byte,
       (0x80 + cp / 0x40 % 0x40) as byte, (0x80 + cp % 0x40) as byte]
  }

  /** The bytes of a Rust `String`. */
  function EncodeText(s: string): seq<byte>
  {
    if s == [] then [] else Utf8Char(s[0]) + EncodeText(s[1..])
  }

  /** A byte that `HeaderValue::from_str` accepts: tab, or any byte from space up,
      except DEL. Bytes of non-ASCII characters are accepted. */
  predicate IsValueByte(b: byte)
  {
    b == 9 || (32 <= b && b != 127)
  }

  /** A byte that `HeaderValue::to_str` accepts: tab or visible ASCII. */
  predicate IsVisibleAsciiByte(b: byte)
  {
    b == 9 || (32 <= b < 127)
  }

  /** A string that `HeaderValue::from_str` turns into a header value. */
  predicate ValidValue(s: string)
  {
    forall c :: c in s ==> c == '\t' || (' ' <= c && c as int != 127)
  }

  /** A string made only of characters that `HeaderValue::to_str` gives back. */
  predicate IsVisibleText(s: string)
  {
    forall c :: c in s ==> c == '\t' || (' ' <= c <= '~')
  }

  /** `HeaderValue::to_str`: the value as text when every byte is tab or visible ASCII. */
  function ToStr(bs: seq<byte>): (r: Option<string>)
  {
    if bs == [] then Some("")
    else if !IsVisibleAsciiByte(bs[0]) then None
    else match ToStr(bs[1..])
      case None => None
      case Some(rest) => Some([bs[0] as int as char] + rest)
  }

  /** A value is given back as text exactly when every byte is tab or visible ASCII,
      and then the text is those bytes read as characters. */
  lemma {:induction false} ToStrMeaning(bs: seq<byte>)
    ensures ToStr(bs).Some? <==> forall i :: 0 <= i < |bs| ==> IsVisibleAsciiByte(bs[i])
    ensures ToStr(bs).Some? ==>
      |ToStr(bs).value| == |bs| &&
      forall i :: 0 <= i < |bs| ==> ToStr(bs).value[i] as int == bs[i] as int
  {
    if bs != [] {
      ToStrMeaning(bs[1..]);
      if !IsVisibleAsciiByte(bs[0]) {
        assert !(forall i :: 0 <= i < |bs| ==> IsVisibleAsciiByte(bs[i]));
      } else if ToStr(bs[1..]).None? {
        var j :| 0 <= j < |bs[1..]| && !IsVisibleAsciiByte(bs[1..][j]);
        assert !IsVisibleAsciiByte(bs[j + 1]);
      } else {
        forall i | 0 <= i < |bs| ensures IsVisibleAsciiByte(bs[i]) {
          if i > 0 { assert bs[i] == bs[1..][i - 1]; }
        }
      }
    }
  }

  /** Every byte of an encoded valid value passes `HeaderValue::from_str`. */
  lemma {:induction false} EncodeValidValue(s: string)
    requires ValidValue(s)
    ensures forall i :: 0 <= i < |EncodeText(s)| ==> IsValueByte(EncodeText(s)[i])
  {
    if s != [] {
      assert s[0] in s;
      assert ValidValue(s[1..]) by {
        forall c | c in s[1..] ensures c == '\t' || (' ' <= c && c as int != 127) {
          assert c in s;
        }
      }
      EncodeValidValue(s[1..]);
      var head := Utf8Char(s[0]);
      forall i | 0 <= i < |EncodeText(s)| ensures IsValueByte(EncodeText(s)[i]) {
        if i >= |head| { assert EncodeText(s)[i] == EncodeText(s[1..])[i - |head|]; }
      }
    }
  }

  /** Reading back what was written: `to_str` of an encoded string gives the string back
      when it is visible ASCII (tabs allowed), and fails otherwise. */
  lemma {:induction false} ToStrEncodeText(s: string)
    ensures ToStr(EncodeText(s)) == if IsVisibleText(s) then Some(s) else None
  {
    if s != [] {
      ToStrEncodeText(s[1..]);
      var c := s[0];
      assert s == [c] + s[1..];
      assert IsVisibleText(s) <==> (c == '\t' || (' ' <= c <= '~')) && IsVisibleText(s[1..]) by {
        if IsVisibleText(s) {
          assert c in s;
          forall d | d in s[1..] ensures d == '\t' || (' ' <= d <= '~') { assert d in s; }
        } else if (c == '\t' || (' ' <= c <= '~')) && IsVisibleText(s[1..]) {
          forall d | d in s ensures d == '\t' || (' ' <= d <= '~') {
            if d != c { assert d in s[1..]; }
          }
        }
      }
      var head := Utf8Char(c);
      if c as int < 128 {
        assert EncodeText(s) == [c as int as byte] + EncodeText(s[1..]);
        assert EncodeText(s)[1..] == EncodeText(s[1..]);
      } else {
        assert EncodeText(s)[0] == head[0];
        assert !IsVisibleAsciiByte(head[0]);
      }
    }
  }

  // --------------------------------------------------------------- the map

  /** `HeaderMap::get` with a string key: the stored value under the lower-cased name,
      and nothing for a key that is not a valid header name. */
  function ValueOf(entries: Entries, key: string): Option<seq<byte>>
  {
    if ValidName(key) && Normalize(key) in entries then Some(entries[Normalize(key)]) else None
  }

  /** A request's or a response's header map, updated in place. */
  class HeaderMap {
    var entries: Entries

    /** Every stored name is a lower-case header name. */
    ghost predicate Valid()
      reads this
    {
      forall k :: k in entries ==> IsNormalName(k)
    }

    constructor (entries: Entries)
      requires forall k :: k in entries ==> IsNormalName(k)
      ensures Valid() && this.entries == entries
    {
      this.entries := entries;
    }
  }

  /** The propagation carrier over a borrowed header map: the extractor side reads it
      (`Get`, `Keys`), the injector side writes it (`Set`). */
  class HeaderCarrier {
    const headers: HeaderMap

    constructor (headers: HeaderMap)
      ensures this.headers == headers
    {
      this.headers := headers;
    }

    /** The value under `key` as text: absent when the key is not a valid name, when
        nothing is stored under it, or when the stored bytes are not visible ASCII. */
    function Get(key: string): (r: Option<string>)
      reads headers
      ensures r.Some? <==>
        && ValidName(key) && Normalize(key) in headers.entries
        && forall i :: 0 <= i < |headers.entries[Normalize(key)]| ==>
             IsVisibleAsciiByte(headers.entries[Normalize(key)][i])
      ensures r.Some? ==> EncodeText(r.value) == headers.entries[Normalize(key)]
    {
      match ValueOf(headers.entries, key)
      case None => None
      case Some(bs) =>
        ToStrMeaning(bs);
        var r := ToStr(bs);
        if r.Some? then
          AsciiRoundTrip(bs, r.value);
          r
        else r
    }

    /** The names in the map, each once. */
    method Keys() returns (names: seq<string>)
      ensures forall k :: k in names <==> k in headers.entries
      ensures forall i, j :: 0 <= i < j < |names| ==> names[i] != names[j]
      ensures |names| == |headers.entries|
    {
      var rest := headers.entries.Keys;
      names := [];
      while rest != {}
        invariant rest <= headers.entries.Keys
        invariant forall k :: k in names <==> k in headers.entries && k !in rest
        invariant forall i, j :: 0 <= i < j < |names| ==> names[i] != names[j]
        invariant |names| + |rest| == |headers.entries.Keys|
        decreases rest
      {
        var k :| k in rest;
        names := names + [k];
        rest := rest - {k};
      }
    }

    /** Writes `value` under `key`, replacing what was stored under that name and leaving
        every other name as it was. The name and the value must be ones the crate accepts
        (it panics otherwise). */
    method Set(key: string, value: string)
      requires headers.Valid()
      requires ValidName(key) && ValidValue(value)
      modifies headers
      ensures headers.Valid()
      ensures headers.entries == old(headers.entries)[Normalize(key) := EncodeText(value)]
    {
      NormalizeIsNormal(key);
      EncodeValidValue(value);
      headers.entries := headers.entries[Normalize(key) := EncodeText(value)];
    }
  }

  /** Bytes that are all ASCII are the encoding of the characters they spell. */
  lemma {:induction false} AsciiRoundTrip(bs: seq<byte>, s: string)
    requires |s| == |bs|
    requires forall i :: 0 <= i < |bs| ==> IsVisibleAsciiByte(bs[i]) && s[i] as int == bs[i] as int
    ensures EncodeText(s) == bs
  {
    if bs != [] {
      AsciiRoundTrip(bs[1..], s[1..]);
      assert Utf8Char(s[0]) == [bs[0]];
    }
  }

  /** A lower-cased valid name is a valid lower-case name. */
  lemma NormalizeIsNormal(key: string)
    requires ValidName(key)
    ensures IsNormalName(Normalize(key))
  {
    var n := Normalize(key);
    assert forall i :: 0 <= i < |n| ==> IsTokenChar(n[i]) && LowerChar(n[i]) == n[i];
    var nn := Normalize(n);
    assert forall i :: 0 <= i < |nn| ==> nn[i] == n[i];
  }

  /** What `Get` gives back right after `Set`: the written text under the written name
      (whatever its case) when it is visible ASCII, nothing when it is not; any other
      name reads as before. */
  lemma SetThenGet(entries: Entries, key: string, value: string, probe: string)
    requires ValidName(key) && ValidValue(value)
    ensures ValueOf(entries[Normalize(key) := EncodeText(value)], probe) ==
      if ValidName(probe) && Normalize(probe) == Normalize(key) then Some(EncodeText(value))
      else ValueOf(entries, probe)
    ensures ValidName(probe) && Normalize(probe) == Normalize(key) ==>
      ToStr(EncodeText(value)) == if IsVisibleText(value) then Some(value) else None
  {
    ToStrEncodeText(value);
  }
}
