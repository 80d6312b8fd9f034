/**
 `did:ans` identifiers: parsing, making one from a public key with Base58, and the file names the
 stores derive from them.
 */
module DidAns {
  import opened Wrappers

  datatype DidAnsError = InvalidPrefix | InvalidPartCount | InvalidSemanticCode | InvalidSuffix | InvalidSyntax

  datatype Did = Did(value: string, semanticCode: string, suffix: string)

  const DID_PREFIX := "did:ans:"

  predicate IsAlphanumeric(c: char) {
    '0' <= c <= '9' || 'A' <= c <= 'Z' || 'a' <= c <= 'z'
  }

  predicate AllAlphanumeric(s: string) {
    forall i :: 0 <= i < |s| ==> IsAlphanumeric(s[i])
  }

  predicate StartsWith(s: string, prefix: string) {
    |prefix| <= |s| && s[..|prefix|] == prefix
  }

  /** `split(':')` */
  function Split(s: string): (parts: seq<string>)
    ensures parts != []
  {
    if s == [] then [""]
    else
      var rest := Split(s[1..]);
      if s[0] == ':' then [""] + rest else [[s[0]] + rest[0]] + rest[1..]
  }

  predicate IsSemanticCode(code: string) {
    |code| == 4 && StartsWith(code, "AG") && AllAlphanumeric(code)
  }

  /** `^did:ans:AG[A-Za-z0-9]{2}:[A-Za-z0-9]{22,48}$` */
  predicate MatchesRegex(s: string) {
    && 13 + 22 <= |s| <= 13 + 48
    && s[..8] == DID_PREFIX && s[8..10] == "AG"
    && AllAlphanumeric(s[10..12]) && s[12] == ':' && AllAlphanumeric(s[13..])
  }

  function Parse(value: string): Result<Did, DidAnsError> {
    if !StartsWith(value, DID_PREFIX) then Err(InvalidPrefix)
    else
      var parts := Split(value);
      if |parts| != 4 then Err(InvalidPartCount)
      else if !IsSemanticCode(parts[2]) then Err(InvalidSemanticCode)
      else if !(22 <= |parts[3]| <= 48) || !AllAlphanumeric(parts[3]) then Err(InvalidSuffix)
      else if !MatchesRegex(value) then Err(InvalidSyntax)
      else Ok(Did(value, parts[2], parts[3]))
  }

  // ----- parsing -----

  predicate NoColon(s: string) {
    ':' !in s
  }

  lemma {:induction false} SplitPiece(a: string)
    requires NoColon(a)
    ensures Split(a) == [a]
  {
    if a != [] {
      SplitPiece(a[1..]);
      assert a == [a[0]] + a[1..];
    }
  }

  lemma {:induction false} SplitAtColon(a: string, rest: string)
    requires NoColon(a)
    ensures Split(a + ":" + rest) == [a] + Split(rest)
  {
    var s := a + ":" + rest;
    if a == [] {
      assert s == ":" + rest && s[1..] == rest;
    } else {
      SplitAtColon(a[1..], rest);
      assert s[1..] == a[1..] + ":" + rest;
      assert a == [a[0]] + a[1..];
    }
  }

  function Join(parts: seq<string>): string
    requires parts != []
  {
    if |parts| == 1 then parts[0] else parts[0] + ":" + Join(parts[1..])
  }

  lemma {:induction false} JoinSplit(s: string)
    ensures Join(Split(s)) == s
    ensures forall i :: 0 <= i < |Split(s)| ==> NoColon(Split(s)[i])
  {
    if s != [] {
      var rest, parts := Split(s[1..]), Split(s);
      JoinSplit(s[1..]);
      if s[0] == ':' {
        assert parts[1..] == rest;
      } else {
        assert parts[1..] == rest[1..];
      }
      assert s == [s[0]] + s[1..];
    }
  }

  lemma AlphanumericHasNoColon(s: string)
    requires AllAlphanumeric(s)
    ensures NoColon(s)
  {
  }

  function Assemble(code: string, suffix: string): string {
    DID_PREFIX + code + ":" + suffix
  }

  lemma SplitAssembled(code: string, suffix: string)
    requires NoColon(code) && NoColon(suffix)
    ensures Split(Assemble(code, suffix)) == ["did", "ans", code, suffix]
  {
    hide Split;
    SplitPiece(suffix);
    SplitAtColon(code, suffix);
    SplitAtColon("ans", code + ":" + suffix);
    SplitAtColon("did", "ans" + ":" + (code + ":" + suffix));
    assert Assemble(code, suffix) == "did" + ":" + ("ans" + ":" + (code + ":" + suffix));
  }

  /** A parsed identifier is exactly its prefix, code and suffix rejoined. */
  lemma ParsedIsAssembled(value: string)
    requires Parse(value).Ok?
    ensures var did := Parse(value).value;
      && did.value == value == Assemble(did.semanticCode, did.suffix)
      && IsSemanticCode(did.semanticCode) && 22 <= |did.suffix| <= 48 && AllAlphanumeric(did.suffix)
  {
    FourPartsAssembled(value);
  }

  /** Four parts after the prefix: the value is the last two rejoined. */
  lemma FourPartsAssembled(value: string)
    requires StartsWith(value, DID_PREFIX) && |Split(value)| == 4
    ensures value == Assemble(Split(value)[2], Split(value)[3])
  {
    hide Split;
    var rest := value[8..];
    SplitAtColon("ans", rest);
    SplitAtColon("did", "ans" + ":" + rest);
    assert value == value[..8] + rest == "did" + ":" + ("ans" + ":" + rest);
    assert Split(value) == ["did"] + (["ans"] + Split(rest));
    JoinSplit(rest);
    var parts := Split(rest);
    assert |parts| == 2 && Join(parts[1..]) == parts[1];
    assert rest == parts[0] + ":" + parts[1];
  }

  lemma RegexAssembled(code: string, suffix: string)
    requires IsSemanticCode(code) && 22 <= |suffix| <= 48 && AllAlphanumeric(suffix)
    ensures MatchesRegex(Assemble(code, suffix))
  {
    var s := Assemble(code, suffix);
    assert s[..8] == DID_PREFIX;
    assert s[8..10] == code[..2];
    assert s[10..12] == code[2..];
    assert s[13..] == suffix;
  }

  /** The parser accepts exactly what the regular expression matches: its last check never fails. */
  lemma ParseIffRegex(value: string)
    ensures Parse(value).Ok? <==> MatchesRegex(value)
    ensures Parse(value) != Err(InvalidSyntax)
  {
    if MatchesRegex(value) {
      var code, suffix := value[8..12], value[13..];
      assert value == Assemble(code, suffix);
      assert code[..2] == value[8..10] && code[2..] == value[10..12];
      assert AllAlphanumeric(code) by {
        forall i | 0 <= i < 4 ensures IsAlphanumeric(code[i]) {
          if i < 2 { assert code[i] == "AG"[i]; } else { assert code[i] == value[10..12][i - 2]; }
        }
      }
      AlphanumericHasNoColon(code);
      AlphanumericHasNoColon(suffix);
      SplitAssembled(code, suffix);
    }
    if StartsWith(value, DID_PREFIX) && |Split(value)| == 4 {
      var parts := Split(value);
      FourPartsAssembled(value);
      if IsSemanticCode(parts[2]) && 22 <= |parts[3]| <= 48 && AllAlphanumeric(parts[3]) {
        RegexAssembled(parts[2], parts[3]);
      }
    }
  }

  lemma ParseAssembled(code: string, suffix: string)
    requires IsSemanticCode(code) && 22 <= |suffix| <= 48 && AllAlphanumeric(suffix)
    ensures Parse(Assemble(code, suffix)) == Ok(Did(Assemble(code, suffix), code, suffix))
  {
    RegexAssembled(code, suffix);
    AlphanumericHasNoColon(code);
    AlphanumericHasNoColon(suffix);
    SplitAssembled(code, suffix);
    assert Assemble(code, suffix)[..8] == DID_PREFIX;
  }

  // ----- file names -----

  function Replace(s: string, from: char, to: char): (r: string)
    ensures |r| == |s|
  {
    seq(|s|, i requires 0 <= i < |s| => if s[i] == from then to else s[i])
  }

  function DidToFileName(did: string): string {
    Replace(did, ':', '_') + ".json"
  }

  /** `trim_end_matches(".json")`: strips every trailing repetition. */
  function TrimJson(name: string): string
    decreases |name|
  {
    if |name| >= 5 && name[|name| - 5..] == ".json" then TrimJson(name[..|name| - 5]) else name
  }

  /** The directory name `archive_verified` uses. */
  function ArchiveStem(did: string): string {
    TrimJson(DidToFileName(did))
  }

  lemma ParsedCharacters(did: string)
    requires Parse(did).Ok?
    ensures forall i :: 0 <= i < |did| ==> did[i] != '_' && did[i] != '.'
    ensures |did| >= 5
  {
    ParsedIsAssembled(did);
    var p := Parse(did).value;
    forall i | 0 <= i < |did| ensures did[i] != '_' && did[i] != '.' {
      if i < 8 { assert did[i] == DID_PREFIX[i]; }
      else if i < 12 { assert did[i] == p.semanticCode[i - 8]; }
      else if i > 12 { assert did[i] == p.suffix[i - 13]; }
    }
  }

  lemma ArchiveStemIsReplaced(did: string)
    requires Parse(did).Ok?
    ensures ArchiveStem(did) == Replace(did, ':', '_')
  {
    ParsedCharacters(did);
    var stem := Replace(did, ':', '_');
    var name := DidToFileName(did);
    assert name[|name| - 5..] == ".json" && name[..|name| - 5] == stem;
    assert stem[|stem| - 5..] != ".json" by {
      assert ".json"[0] == '.' && stem[|stem| - 5..][0] == stem[|stem| - 5];
    }
    assert TrimJson(stem) == stem;
  }

  /** Identifiers the parser accepts never share a file or an archive directory. */
  lemma FileNamesInjective(a: string, b: string)
    requires Parse(a).Ok? && Parse(b).Ok?
    ensures DidToFileName(a) == DidToFileName(b) ==> a == b
    ensures ArchiveStem(a) == ArchiveStem(b) ==> a == b
  {
    ParsedCharacters(a);
    ParsedCharacters(b);
    ArchiveStemIsReplaced(a);
    ArchiveStemIsReplaced(b);
    var x, y := Replace(a, ':', '_'), Replace(b, ':', '_');
    if DidToFileName(a) == DidToFileName(b) {
      assert |DidToFileName(a)| == |a| + 5 && |DidToFileName(b)| == |b| + 5;
      assert x == DidToFileName(a)[..|a|] && y == DidToFileName(b)[..|b|];
    }
    if x == y {
      forall i | 0 <= i < |a| ensures a[i] == b[i] {
        assert x[i] == y[i];
      }
    }
  }
}
