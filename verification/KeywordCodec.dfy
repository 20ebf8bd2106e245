/** Tags as mail server keywords: the escaped atom, and bringing the keywords of a message to a wanted set. */
module KeywordCodec {
  import opened Basics
  import opened Lists

  const PREFIX := "mtag-"
  const LIMIT := 64

  type Byte = b: int | 0 <= b < 256

  datatype KeywordError = Unencodable | Unsupported | NotStored

  predicate IsPlain(b: Byte) {
    48 <= b <= 57 || 97 <= b <= 122 || b == 45
  }

  predicate PlainCharacter(c: char) {
    '0' <= c <= '9' || 'a' <= c <= 'z' || c == '-'
  }

  function HexDigit(n: int): (c: char)
    requires 0 <= n < 16
    ensures IsHex(c) && HexValue(c) == n
  {
    "0123456789abcdef"[n]
  }

  predicate IsHex(c: char) {
    '0' <= c <= '9' || 'a' <= c <= 'f'
  }

  function HexValue(c: char): (n: int)
    requires IsHex(c)
    ensures 0 <= n < 16
  {
    if '0' <= c <= '9' then c as int - '0' as int else c as int - 'a' as int + 10
  }

  function EncodeByte(b: Byte): string {
    if IsPlain(b) then [b as char] else ['_', HexDigit(b / 16), HexDigit(b % 16)]
  }

  function EncodeBytes(name: seq<Byte>): string {
    if name == [] then "" else EncodeBytes(name[..|name| - 1]) + EncodeByte(name[|name| - 1])
  }

  lemma EncodeNext(name: seq<Byte>, i: nat)
    requires i < |name|
    ensures EncodeBytes(name[..i + 1]) == EncodeBytes(name[..i]) + EncodeByte(name[i])
  {
    assert name[..i + 1][..i] == name[..i];
  }

  /** The atom of a tag whose normalized name has these UTF-8 bytes. */
  method MessageTagKeyword(name: seq<Byte>) returns (r: Result<string, KeywordError>)
    ensures r == Encode(name)
  {
    if |name| == 0 {
      return Err(Unencodable);
    }
    var escaped := "";
    var i := 0;
    while i < |name|
      invariant 0 <= i <= |name| && escaped == EncodeBytes(name[..i])
    {
      EncodeNext(name, i);
      escaped := escaped + EncodeByte(name[i]);
      i := i + 1;
    }
    assert name[..|name|] == name;
    var atom := PREFIX + escaped;
    if |atom| > LIMIT {
      return Err(Unencodable);
    }
    return Ok(atom);
  }

  function Encode(name: seq<Byte>): Result<string, KeywordError> {
    if name == [] || |PREFIX + EncodeBytes(name)| > LIMIT then Err(Unencodable) else Ok(PREFIX + EncodeBytes(name))
  }

  function LowerChar(c: char): char {
    if 'A' <= c <= 'Z' then (c as int + 32) as char else c
  }

  function Lower(s: string): (r: string)
    ensures |r| == |s| && forall k :: 0 <= k < |s| ==> r[k] == LowerChar(s[k])
  {
    seq(|s|, k requires 0 <= k < |s| => LowerChar(s[k]))
  }

  function EscapedByte(s: string): Byte
    requires |s| >= 3 && IsHex(s[1]) && IsHex(s[2])
  {
    HexValue(s[1]) * 16 + HexValue(s[2])
  }

  /** The bytes that the rest of an atom stands for, or None when it is not one of ours. */
  function DecodeFrom(s: string): Option<seq<Byte>> {
    if s == "" then Some([])
    else if s[0] == '_' then
      if |s| < 3 || !IsHex(s[1]) || !IsHex(s[2]) then None
      else Prepend(EscapedByte(s), DecodeFrom(s[3..]))
    else if !PlainCharacter(s[0]) then None
    else Prepend(s[0] as int, DecodeFrom(s[1..]))
  }

  function Prepend(b: Byte, rest: Option<seq<Byte>>): Option<seq<Byte>> {
    if rest.None? then None else Some([b] + rest.value)
  }

  /** Bytes in front of what is decoded later. */
  function Before(bytes: seq<Byte>, rest: Option<seq<Byte>>): Option<seq<Byte>> {
    if rest.None? then None else Some(bytes + rest.value)
  }

  lemma BeforeOneMore(bytes: seq<Byte>, b: Byte, rest: Option<seq<Byte>>)
    ensures Before([], rest) == rest
    ensures Before(bytes, Prepend(b, rest)) == Before(bytes + [b], rest)
  {
    if rest.Some? {
      assert [] + rest.value == rest.value;
      assert bytes + ([b] + rest.value) == bytes + [b] + rest.value;
    }
  }

  function Decode(keyword: string): Option<seq<Byte>> {
    var atom := Lower(keyword);
    if !(PREFIX <= atom) then None
    else
      var bytes := DecodeFrom(atom[|PREFIX|..]);
      if bytes == Some([]) then None else bytes
  }

  /** The tag name an atom was built from. */
  method MessageTagKeywordName(keyword: string) returns (r: Option<seq<Byte>>)
    ensures r == Decode(keyword)
  {
    var atom := Lower(keyword);
    if !(PREFIX <= atom) {
      return None;
    }
    var rest := atom[|PREFIX|..];
    var bytes: seq<Byte> := [];
    var i := 0;
    assert rest[0..] == rest;
    BeforeOneMore([], 0, DecodeFrom(rest));
    while i < |rest|
      invariant 0 <= i <= |rest|
      invariant DecodeFrom(rest) == Before(bytes, DecodeFrom(rest[i..]))
    {
      var character := rest[i];
      if character == '_' {
        if i + 2 >= |rest| || !IsHex(rest[i + 1]) || !IsHex(rest[i + 2]) {
          return None;
        }
        assert rest[i..][3..] == rest[i + 3..];
        BeforeOneMore(bytes, HexValue(rest[i + 1]) * 16 + HexValue(rest[i + 2]), DecodeFrom(rest[i + 3..]));
        bytes := bytes + [HexValue(rest[i + 1]) * 16 + HexValue(rest[i + 2])];
        i := i + 3;
      } else {
        if !PlainCharacter(character) {
          return None;
        }
        assert rest[i..][1..] == rest[i + 1..];
        BeforeOneMore(bytes, character as int, DecodeFrom(rest[i + 1..]));
        bytes := bytes + [character as int];
        i := i + 1;
      }
    }
    assert rest[i..] == "" && bytes + [] == bytes;
    return if |bytes| == 0 then None else Some(bytes);
  }

  // Round trips

  lemma DecodeOneByte(b: Byte, rest: string)
    ensures DecodeFrom(EncodeByte(b) + rest) == Prepend(b, DecodeFrom(rest))
  {
    assert (EncodeByte(b) + rest)[|EncodeByte(b)|..] == rest;
  }

  lemma {:induction false} DecodeEncoded(name: seq<Byte>, rest: string)
    ensures DecodeFrom(EncodeBytes(name) + rest) == Before(name, DecodeFrom(rest))
  {
    if name == [] {
      assert EncodeBytes(name) + rest == rest;
      BeforeOneMore([], 0, DecodeFrom(rest));
    } else {
      var front, last := name[..|name| - 1], name[|name| - 1];
      var tail := EncodeByte(last) + rest;
      Assoc(EncodeBytes(front), EncodeByte(last), rest);
      DecodeEncoded(front, tail);
      DecodeOneByte(last, rest);
      BeforeOneMore(front, last, DecodeFrom(rest));
      assert front + [last] == name;
    }
  }

  predicate AtomCharacter(c: char) {
    PlainCharacter(c) || c == '_'
  }

  /** Atoms use only digits, lower-case letters, '-' and '_'. */
  lemma {:induction false} AtomsAreLegal(name: seq<Byte>)
    ensures forall k :: 0 <= k < |EncodeBytes(name)| ==> AtomCharacter(EncodeBytes(name)[k])
    ensures Encode(name).Ok? ==> forall k :: 0 <= k < |Encode(name).value| ==> AtomCharacter(Encode(name).value[k])
  {
    if name != [] {
      AtomsAreLegal(name[..|name| - 1]);
    }
  }

  /** However the server changes the case of letters, the name is read back. */
  lemma NameSurvivesCaseFolding(name: seq<Byte>, keyword: string)
    requires Encode(name).Ok? && Lower(keyword) == Lower(Encode(name).value)
    ensures Decode(keyword) == Some(name)
  {
    var atom := Encode(name).value;
    AtomsAreLegal(name);
    assert Lower(atom) == atom;
    assert atom[|PREFIX|..] == EncodeBytes(name);
    DecodeEncoded(name, "");
    assert EncodeBytes(name) + "" == EncodeBytes(name) && name + [] == name;
  }

  /** Two names whose atoms a case-insensitive server would confuse are one name. */
  lemma DistinctNamesGetDistinctAtoms(a: seq<Byte>, b: seq<Byte>)
    requires Encode(a).Ok? && Encode(b).Ok? && Lower(Encode(a).value) == Lower(Encode(b).value)
    ensures a == b
  {
    NameSurvivesCaseFolding(a, Encode(a).value);
    NameSurvivesCaseFolding(b, Encode(a).value);
  }

  /** An escape of a byte that needs none; this application does not write it. */
  predicate NeedlessEscape(s: string) {
    if s == "" then false
    else if s[0] == '_' && |s| >= 3 && IsHex(s[1]) && IsHex(s[2]) then
      IsPlain(EscapedByte(s)) || NeedlessEscape(s[3..])
    else NeedlessEscape(s[1..])
  }

  lemma {:induction false} EncodeFirst(b: Byte, rest: seq<Byte>)
    ensures EncodeBytes([b] + rest) == EncodeByte(b) + EncodeBytes(rest)
  {
    var all := [b] + rest;
    if rest == [] {
      assert all[..0] == [] && all[|all| - 1] == b;
      assert "" + EncodeByte(b) == EncodeByte(b) + "";
    } else {
      EncodeFirst(b, rest[..|rest| - 1]);
      assert all[..|all| - 1] == [b] + rest[..|rest| - 1];
      Assoc(EncodeByte(b), EncodeBytes(rest[..|rest| - 1]), EncodeByte(rest[|rest| - 1]));
    }
  }

  lemma SameBehind(a: string, b: string, c: string, d: string)
    requires |a| == |c|
    ensures a + b == c + d <==> a == c && b == d
  {
    if a + b == c + d {
      assert (a + b)[..|a|] == a && (c + d)[..|c|] == c;
      assert (a + b)[|a|..] == b && (c + d)[|c|..] == d;
    }
  }

  lemma EscapeOfByte(s: string)
    requires |s| >= 3 && s[0] == '_' && IsHex(s[1]) && IsHex(s[2])
    ensures EncodeByte(EscapedByte(s)) == if IsPlain(EscapedByte(s)) then [EscapedByte(s) as char] else s[..3]
  {
    var high, low := HexValue(s[1]), HexValue(s[2]);
    var b := EscapedByte(s);
    assert b / 16 == high && b % 16 == low by { HexPairs(s[1], s[2]); }
    assert HexDigit(high) == s[1] && HexDigit(low) == s[2] by { HexPairs(s[1], s[2]); }
    if !IsPlain(b) {
      assert EncodeByte(b) == ['_', HexDigit(high), HexDigit(low)] == ['_', s[1], s[2]];
    }
  }

  lemma ReencodeEscape(s: string, b: Byte, rest: seq<Byte>)
    requires |s| >= 3 && EncodeByte(b) == if IsPlain(b) then [b as char] else s[..3]
    requires |EncodeBytes(rest)| <= |s| - 3
    ensures EncodeBytes([b] + rest) == s <==> !IsPlain(b) && EncodeBytes(rest) == s[3..]
    ensures |EncodeBytes([b] + rest)| <= |s|
  {
    EncodeFirst(b, rest);
    assert s == s[..3] + s[3..];
    if !IsPlain(b) {
      SameBehind(s[..3], EncodeBytes(rest), s[..3], s[3..]);
    }
  }

  lemma ReencodePlain(s: string, rest: seq<Byte>)
    requires s != "" && PlainCharacter(s[0])
    ensures EncodeBytes([s[0] as int] + rest) == s <==> EncodeBytes(rest) == s[1..]
    ensures |EncodeBytes([s[0] as int] + rest)| == 1 + |EncodeBytes(rest)|
  {
    EncodeFirst(s[0] as int, rest);
    assert s == s[..1] + s[1..] && EncodeByte(s[0] as int) == s[..1];
    SameBehind(s[..1], EncodeBytes(rest), s[..1], s[1..]);
  }

  /** Reading and writing again gives the same text exactly when no escape is needless. */
  lemma {:induction false} ReencodeIffCanonical(s: string)
    requires DecodeFrom(s).Some?
    ensures EncodeBytes(DecodeFrom(s).value) == s <==> !NeedlessEscape(s)
    ensures |EncodeBytes(DecodeFrom(s).value)| <= |s|
  {
    if s == "" {
    } else if s[0] == '_' {
      ReencodeIffCanonical(s[3..]);
      EscapeOfByte(s);
      ReencodeEscape(s, EscapedByte(s), DecodeFrom(s[3..]).value);
    } else {
      ReencodeIffCanonical(s[1..]);
      ReencodePlain(s, DecodeFrom(s[1..]).value);
    }
  }

  lemma HexPairs(high: char, low: char)
    requires IsHex(high) && IsHex(low)
    ensures var b := HexValue(high) * 16 + HexValue(low);
            b / 16 == HexValue(high) && b % 16 == HexValue(low)
    ensures HexDigit(HexValue(high)) == high && HexDigit(HexValue(low)) == low
  {
  }

  /** A keyword read as a tag is the atom of that tag exactly when it escapes nothing needlessly and keeps to the limit. */
  lemma KeywordIsTheAtomIff(keyword: string)
    requires Decode(keyword).Some?
    ensures Encode(Decode(keyword).value) == Ok(Lower(keyword))
            <==> !NeedlessEscape(Lower(keyword)[|PREFIX|..]) && |keyword| <= LIMIT
  {
    var atom := Lower(keyword);
    var rest := atom[|PREFIX|..];
    ReencodeIffCanonical(rest);
    assert atom == PREFIX + rest;
    assert (PREFIX + EncodeBytes(DecodeFrom(rest).value))[|PREFIX|..] == EncodeBytes(DecodeFrom(rest).value);
  }

  // Bringing the keywords of a message to the wanted tags

  predicate IsTag(keyword: string) {
    PREFIX <= keyword
  }

  function Tags(keywords: set<string>): set<string> {
    set k | k in keywords && IsTag(k)
  }

  datatype Change = Change(added: set<string>, removed: set<string>, keywords: set<string>)

  /** Keywords are folded to lower case. The server answers the two requests, and reports in the end what it has stored. */
  method ApplyKeywords(current: set<string>, desired: set<string>, supported: bool, addConfirmed: bool, removeConfirmed: bool, stored: set<string>)
      returns (r: Result<Change, KeywordError>)
    requires Tags(desired) == desired
    ensures r.Ok? ==> Tags(r.value.keywords) == desired
    ensures r.Ok? ==> r.value.added == desired - current && r.value.removed == Tags(current) - desired
    ensures Tags(current) == desired ==> r == Ok(Change({}, {}, current))
    ensures Tags(current) != desired ==>
              (r.Ok? <==> && supported && (desired <= current || addConfirmed) && (Tags(current) <= desired || removeConfirmed)
                          && Tags(stored) == desired)
    ensures Tags(current) != desired && r.Ok? ==> r.value.keywords == stored
  {
    var added := desired - current;
    var removed := set k | k in current && IsTag(k) && k !in desired;
    assert removed == Tags(current) - desired;
    NothingLeft(desired, current);
    NothingLeft(Tags(current), desired);
    NothingLeft(desired, Tags(current));
    assert desired - Tags(current) == added by {
      forall k | k in desired ensures k in current <==> k in Tags(current) {
        assert k in Tags(desired);
      }
    }
    if added == {} && removed == {} {
      return Ok(Change(added, removed, current));
    }
    if !supported {
      return Err(Unsupported);
    }
    if added != {} && !addConfirmed {
      return Err(NotStored);
    }
    if removed != {} && !removeConfirmed {
      return Err(NotStored);
    }
    var ours := Tags(stored);
    if |ours| != |desired| || exists k :: k in ours && k !in desired {
      return Err(NotStored);
    }
    SubsetOfSameSize(ours, desired);
    return Ok(Change(added, removed, stored));
  }

  lemma NothingLeft(a: set<string>, b: set<string>)
    ensures a - b == {} <==> a <= b
  {
    assert a <= b + (a - b);
  }

  lemma {:induction false} SubsetOfSameSize(a: set<string>, b: set<string>)
    requires |a| == |b| && a <= b
    ensures a == b
  {
    if b != {} && a != {} {
      var x :| x in a;
      SubsetOfSameSize(a - {x}, b - {x});
      assert a == (a - {x}) + {x} && b == (b - {x}) + {x};
    }
  }

  /** A server that does what it confirms ends with the wanted tags, and keeps every keyword that is not a tag. */
  lemma HonestServerKeepsForeignKeywords(current: set<string>, desired: set<string>)
    requires Tags(desired) == desired
    ensures var stored := current + (desired - current) - (Tags(current) - desired);
            && Tags(stored) == desired
            && stored - Tags(stored) == current - Tags(current)
  {
    var stored := current + (desired - current) - (Tags(current) - desired);
    forall k ensures k in Tags(stored) <==> k in desired {
      if k in desired { assert k in Tags(desired); }
    }
    forall k ensures k in stored - Tags(stored) <==> k in current - Tags(current) {
      if k in desired { assert k in Tags(desired); }
    }
  }
}
