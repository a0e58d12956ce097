/** Deterministic names of API objects: parts joined by hyphens, and a hash of the parts at the end. */
module Names {
  import opened Wrappers

  const HASH_LENGTH := 8
  const TRUNCATION_MARK := "---"
  const MIN_TRUNCATED_LENGTH := 1 + 3 + HASH_LENGTH

  /** The part of a digest that is used: eight hexadecimal digits. */
  type Digest = string -> string

  predicate IsHexDigit(c: char)
  {
    '0' <= c <= '9' || 'a' <= c <= 'f'
  }

  ghost predicate IsDigest(digest: Digest)
  {
    forall s: string :: |digest(s)| == HASH_LENGTH && forall c | c in digest(s) :: IsHexDigit(c)
  }

  /** The digest tells these two inputs apart, if they differ. */
  ghost predicate Separates(digest: Digest, s: string, t: string)
  {
    digest(s) == digest(t) ==> s == t
  }

  /** Every part followed by a mark. */
  function Terminated(parts: seq<string>, mark: char): string
  {
    if parts == [] then "" else parts[0] + [mark] + Terminated(parts[1..], mark)
  }

  function Join(parts: seq<string>): string
  {
    if parts == [] then ""
    else if |parts| == 1 then parts[0]
    else parts[0] + "-" + Join(parts[1..])
  }

  lemma {:induction false} TerminatedConcat(a: seq<string>, b: seq<string>, mark: char)
    ensures Terminated(a + b, mark) == Terminated(a, mark) + Terminated(b, mark)
  {
    if a == [] {
      assert a + b == b;
    } else {
      assert (a + b)[1..] == a[1..] + b;
      TerminatedConcat(a[1..], b, mark);
    }
  }

  method Hash(parts: seq<string>, digest: Digest) returns (hash: string)
    ensures hash == digest(Terminated(parts, '\0'))
  {
    var written := "";
    for i := 0 to |parts|
      invariant written == Terminated(parts[..i], '\0')
    {
      TerminatedConcat(parts[..i], [parts[i]], '\0');
      assert parts[..i + 1] == parts[..i] + [parts[i]];
      written := written + parts[i];
      written := written + ['\0'];
    }
    assert parts[..|parts|] == parts;
    return digest(written);
  }

  // ------------------------------------------------------------ the deprecated form

  function DeprecatedName(parts: seq<string>, digest: Digest): string
  {
    Join(parts + [digest(Terminated(parts, '\0'))])
  }

  method DeprecatedJoin(parts: seq<string>, digest: Digest) returns (name: string)
    ensures name == DeprecatedName(parts, digest)
  {
    var hash := Hash(parts, digest);
    return Join(parts + [hash]);
  }

  lemma {:induction false} JoinIsTerminated(parts: seq<string>, last: string)
    ensures Join(parts + [last]) == Terminated(parts, '-') + last
  {
    if parts == [] {
      assert parts + [last] == [last];
    } else {
      assert (parts + [last])[1..] == parts[1..] + [last];
      JoinIsTerminated(parts[1..], last);
    }
  }

  /** The two encodings of a list of parts agree inside the parts and differ right behind the first part. */
  lemma FirstMark(parts: seq<string>, m: char, n: char)
    requires parts != [] && m != n
    ensures var s, t, k := Terminated(parts, m), Terminated(parts, n), |parts[0]|;
            && k < |s| && k < |t| && s[k] != t[k]
            && (forall i | 0 <= i < k :: s[i] == t[i] == parts[0][i])
            && s[k + 1..] == Terminated(parts[1..], m) && t[k + 1..] == Terminated(parts[1..], n)
  {
  }

  /** Two lists of parts, hyphens and NULs among their characters included, are equal if their encodings with two
      different marks are. */
  lemma {:induction false} TwoMarksDetermineParts(a: seq<string>, b: seq<string>, m: char, n: char)
    requires m != n
    requires Terminated(a, m) == Terminated(b, m) && Terminated(a, n) == Terminated(b, n)
    ensures a == b
    decreases |a|
  {
    if a != [] && b != [] {
      FirstMark(a, m, n);
      FirstMark(b, m, n);
      hide Terminated;
      assert |a[0]| == |b[0]|;
      TwoMarksDetermineParts(a[1..], b[1..], m, n);
      assert a[0] == b[0];
      assert a == [a[0]] + a[1..] && b == [b[0]] + b[1..];
    }
  }

  /** Names are equal exactly if the parts are, unless the digest confuses two different inputs. */
  lemma DeprecatedNamesCollideOnlyWithDigests(a: seq<string>, b: seq<string>, digest: Digest)
    requires IsDigest(digest)
    ensures DeprecatedName(a, digest) == DeprecatedName(b, digest)
       <==> Terminated(a, '-') == Terminated(b, '-') && digest(Terminated(a, '\0')) == digest(Terminated(b, '\0'))
    ensures Separates(digest, Terminated(a, '\0'), Terminated(b, '\0')) ==>
              (DeprecatedName(a, digest) == DeprecatedName(b, digest) <==> a == b)
  {
    var h, k := digest(Terminated(a, '\0')), digest(Terminated(b, '\0'));
    JoinIsTerminated(a, h);
    JoinIsTerminated(b, k);
    if DeprecatedName(a, digest) == DeprecatedName(b, digest) {
      SplitLast(Terminated(a, '-'), h, Terminated(b, '-'), k);
      if Terminated(a, '\0') == Terminated(b, '\0') {
        TwoMarksDetermineParts(a, b, '-', '\0');
      }
    }
  }

  lemma SplitLast(s: string, h: string, t: string, k: string)
    requires s + h == t + k && |h| == |k|
    ensures s == t && h == k
  {
    assert s == (s + h)[..|s|] && t == (t + k)[..|t|];
    assert h == (s + h)[|s|..] && k == (t + k)[|t|..];
  }

  // ------------------------------------------------------------ names with constraints

  datatype Constraints = Constraints(maxLength: int, validFirstChar: char -> bool)

  predicate IsLowercaseAlphanumeric(c: char)
  {
    'a' <= c <= 'z' || '0' <= c <= '9'
  }

  function ToLower(c: char): char
    requires 'A' <= c <= 'Z'
  {
    (c as int - 'A' as int + 'a' as int) as char
  }

  function Transform(c: char): char
  {
    if IsLowercaseAlphanumeric(c) || c == '-' then c
    else if 'A' <= c <= 'Z' then ToLower(c)
    else '-'
  }

  /** Small letters, digits and hyphens stay, capitals become small letters, and everything else becomes a hyphen. */
  lemma TransformMeans(c: char)
    ensures 'a' <= c <= 'z' || '0' <= c <= '9' || c == '-' ==> Transform(c) == c
    ensures 'A' <= c <= 'Z' ==> 'a' <= Transform(c) <= 'z' && Transform(c) as int - 'a' as int == c as int - 'A' as int
    ensures !('a' <= c <= 'z' || '0' <= c <= '9' || 'A' <= c <= 'Z') ==> Transform(c) == '-'
  {
  }

  function Transformed(s: string): string
  {
    seq(|s|, i requires 0 <= i < |s| => Transform(s[i]))
  }

  function TransformedParts(parts: seq<string>): seq<string>
  {
    seq(|parts|, i requires 0 <= i < |parts| => Transformed(parts[i]))
  }

  /** `s`, with an x in front if it has no valid first character. */
  function Repaired(cons: Constraints, s: string): string
  {
    if |s| == 0 || !cons.validFirstChar(s[0]) then "x" + s else s
  }

  /** The readable part of a name. */
  function Readable(cons: Constraints, parts: seq<string>): string
    requires parts != []
  {
    var newParts := TransformedParts(parts);
    Join(newParts[0 := Repaired(cons, newParts[0])])
  }

  function WithHash(cons: Constraints, readable: string, hash: string): string
    requires cons.maxLength >= MIN_TRUNCATED_LENGTH && |hash| == HASH_LENGTH
  {
    if |readable| + 1 + |hash| <= cons.maxLength then readable + "-" + hash
    else readable[..cons.maxLength - |hash| - |TRUNCATION_MARK|] + TRUNCATION_MARK + hash
  }

  /** The name, for a list of parts that is not empty. */
  ghost function Name(cons: Constraints, salt: seq<string>, parts: seq<string>, digest: Digest): string
    requires cons.maxLength >= MIN_TRUNCATED_LENGTH && parts != [] && IsDigest(digest)
  {
    WithHash(cons, Readable(cons, parts), digest(Terminated(salt + parts, '\0')))
  }

  /** There is no result if the call panics. */
  method JoinSaltWithConstraints(cons: Constraints, salt: seq<string>, parts: seq<string>, digest: Digest)
    returns (name: Option<string>)
    requires IsDigest(digest)
    ensures name.None? <==> cons.maxLength < MIN_TRUNCATED_LENGTH
    ensures name.Some? ==> name.value == if parts == [] then "" else Name(cons, salt, parts, digest)
  {
    if cons.maxLength < MIN_TRUNCATED_LENGTH {
      return None;
    }
    if |parts| == 0 {
      return Some("");
    }
    var hash := Hash(salt + parts, digest);
    var newParts: seq<string> := [];
    for i := 0 to |parts|
      invariant newParts == TransformedParts(parts[..i])
    {
      newParts := newParts + [Transformed(parts[i])];
    }
    assert parts[..|parts|] == parts;
    var firstPart := newParts[0];
    if |firstPart| == 0 || !cons.validFirstChar(firstPart[0]) {
      newParts := newParts[0 := "x" + firstPart];
    }
    var partialResult := Join(newParts);
    assert partialResult == Readable(cons, parts);
    var predictedLength := |partialResult| + 1 + |hash|;
    if predictedLength <= cons.maxLength {
      return Some(partialResult + "-" + hash);
    }
    var cutLength := predictedLength - cons.maxLength + 2;
    partialResult := partialResult[..|partialResult| - cutLength];
    return Some(partialResult + TRUNCATION_MARK + hash);
  }

  predicate AllAllowed(s: string)
  {
    forall i | 0 <= i < |s| :: IsLowercaseAlphanumeric(s[i]) || s[i] == '-'
  }

  lemma {:induction false} JoinAllowed(parts: seq<string>)
    requires parts != [] && forall i | 0 <= i < |parts| :: AllAllowed(parts[i])
    ensures AllAllowed(Join(parts))
    ensures parts[0] <= Join(parts)
  {
    if |parts| > 1 {
      JoinAllowed(parts[1..]);
    }
  }

  lemma ReadableMeetsConstraints(cons: Constraints, parts: seq<string>)
    requires parts != [] && cons.validFirstChar('x')
    ensures var r := Readable(cons, parts); |r| > 0 && AllAllowed(r) && cons.validFirstChar(r[0])
  {
    var newParts := TransformedParts(parts);
    JoinAllowed(newParts[0 := Repaired(cons, newParts[0])]);
  }

  /** Every name fits, uses only the allowed characters, starts with a valid one, ends with the whole hash, and is
      as long as allowed when it had to be truncated. */
  lemma NameMeetsConstraints(cons: Constraints, salt: seq<string>, parts: seq<string>, digest: Digest)
    requires cons.maxLength >= MIN_TRUNCATED_LENGTH && parts != [] && IsDigest(digest) && cons.validFirstChar('x')
    ensures var name, readable := Name(cons, salt, parts, digest), Readable(cons, parts);
            && HASH_LENGTH < |name| <= cons.maxLength && AllAllowed(name) && cons.validFirstChar(name[0])
            && name[|name| - HASH_LENGTH..] == digest(Terminated(salt + parts, '\0'))
            && (|readable| + 1 + HASH_LENGTH <= cons.maxLength ==> name[..|name| - HASH_LENGTH] == readable + "-")
            && (|readable| + 1 + HASH_LENGTH > cons.maxLength ==>
                  && |name| == cons.maxLength
                  && name[..|name| - HASH_LENGTH] == readable[..|name| - HASH_LENGTH - 3] + TRUNCATION_MARK)
  {
    ReadableMeetsConstraints(cons, parts);
    var readable, hash := Readable(cons, parts), digest(Terminated(salt + parts, '\0'));
    hide Readable, Terminated;
    var name := Name(cons, salt, parts, digest);
    assert forall i | 0 <= i < |hash| :: hash[i] in hash;
    assert name[|name| - HASH_LENGTH..] == hash;
    if |readable| + 1 + HASH_LENGTH <= cons.maxLength {
      assert name[..|name| - HASH_LENGTH] == readable + "-";
    } else {
      assert name[..|name| - HASH_LENGTH] == readable[..|name| - HASH_LENGTH - 3] + TRUNCATION_MARK;
    }
  }

  lemma AllowedUnchanged(parts: seq<string>)
    requires forall i | 0 <= i < |parts| :: AllAllowed(parts[i])
    ensures TransformedParts(parts) == parts
  {
    forall i | 0 <= i < |parts|
      ensures Transformed(parts[i]) == parts[i]
    {
    }
  }

  /** Parts that meet the constraints are readable in the name as they are, joined by hyphens. */
  lemma GoodPartsAreKept(cons: Constraints, parts: seq<string>)
    requires parts != [] && forall i | 0 <= i < |parts| :: AllAllowed(parts[i])
    requires parts[0] != "" && cons.validFirstChar(parts[0][0])
    ensures Readable(cons, parts) == Join(parts)
  {
    AllowedUnchanged(parts);
    assert parts[0 := parts[0]] == parts;
  }

  /** If the first part has no valid first character, an x is put in front, and nothing else is changed. */
  lemma BadStartGetsAnX(cons: Constraints, parts: seq<string>)
    requires parts != [] && forall i | 0 <= i < |parts| :: AllAllowed(parts[i])
    requires parts[0] == "" || !cons.validFirstChar(parts[0][0])
    ensures Readable(cons, parts) == "x" + Join(parts)
  {
    AllowedUnchanged(parts);
    JoinRepaired(cons, parts);
    JoinAllowed(parts);
    hide Join, TransformedParts;
  }

  // ------------------------------------------------------------ when two names coincide

  lemma {:induction false} JoinTransformed(parts: seq<string>)
    requires parts != []
    ensures var s := Terminated(parts, '\0'); |s| > 0 && Join(TransformedParts(parts)) == Transformed(s[..|s| - 1])
  {
    var s := Terminated(parts, '\0');
    if |parts| == 1 {
      assert s == parts[0] + ['\0'];
    } else {
      JoinTransformed(parts[1..]);
      var rest := Terminated(parts[1..], '\0');
      assert TransformedParts(parts)[1..] == TransformedParts(parts[1..]);
      assert s[..|s| - 1] == parts[0] + ['\0'] + rest[..|rest| - 1];
      TransformedConcat(parts[0], ['\0'] + rest[..|rest| - 1]);
      TransformedConcat(['\0'], rest[..|rest| - 1]);
      assert parts[0] + (['\0'] + rest[..|rest| - 1]) == s[..|s| - 1];
      assert Transformed(['\0']) == "-";
    }
  }

  lemma TransformedConcat(s: string, t: string)
    ensures Transformed(s + t) == Transformed(s) + Transformed(t)
  {
  }

  lemma JoinRepaired(cons: Constraints, parts: seq<string>)
    requires parts != []
    ensures Join(parts[0 := Repaired(cons, parts[0])])
         == if parts[0] == "" then "x" + Join(parts) else Repaired(cons, Join(parts))
  {
    var repaired := parts[0 := Repaired(cons, parts[0])];
    assert repaired[1..] == parts[1..];
    if |parts| > 1 {
      var rest := "-" + Join(parts[1..]);
      assert Join(parts) == parts[0] + rest && Join(repaired) == Repaired(cons, parts[0]) + rest;
      if parts[0] != "" {
        assert Join(parts)[0] == parts[0][0];
      }
      assert ("x" + parts[0]) + rest == "x" + (parts[0] + rest);
    }
  }

  /** What is readable in a name depends on the NUL-terminated encoding of its parts, and on whether the first part is
      empty. */
  lemma ReadableOfEncoding(cons: Constraints, parts: seq<string>)
    requires parts != []
    ensures var s := Terminated(parts, '\0');
            && |s| > 0
            && Readable(cons, parts)
               == if parts[0] == "" then "x" + Transformed(s[..|s| - 1]) else Repaired(cons, Transformed(s[..|s| - 1]))
  {
    JoinTransformed(parts);
    JoinRepaired(cons, TransformedParts(parts));
    assert TransformedParts(parts)[0] == "" <==> parts[0] == "";
  }

  /** Two lists with one encoding, of which only the first starts with an empty part: the readable part starts with
      a hyphen in front of which only the first list has got an x. */
  lemma EmptyFirstPart(cons: Constraints, a: seq<string>, b: seq<string>)
    requires a != [] && b != [] && a[0] == "" && b[0] != "" && Terminated(a, '\0') == Terminated(b, '\0')
    ensures var r, q := Readable(cons, a), Readable(cons, b);
            && |r| > 0 && |q| > 0 && r[0] == 'x'
            && (if cons.validFirstChar('-') then q[0] == '-' else q == r)
  {
    var s := Terminated(a, '\0');
    ReadableOfEncoding(cons, a);
    ReadableOfEncoding(cons, b);
    EncodingStarts(a);
    EncodingStarts(b);
    hide Readable, Terminated;
    var t := s[..|s| - 1];
    assert t[0] == '\0' && Transformed(t)[0] == Transform('\0') == '-' && |Transformed(t)| == |t|;
    hide Transformed, Transform;
  }

  lemma EncodingStarts(parts: seq<string>)
    requires parts != []
    ensures var s := Terminated(parts, '\0');
            |s| > 0 && if parts[0] == "" then s[0] == '\0' else |s| > 1 && s[0] == parts[0][0]
  {
  }

  lemma NamesEndInHash(cons: Constraints, salt: seq<string>, a: seq<string>, digest: Digest)
    requires cons.maxLength >= MIN_TRUNCATED_LENGTH && a != [] && IsDigest(digest)
    ensures var name := Name(cons, salt, a, digest);
            |name| >= HASH_LENGTH && name[|name| - HASH_LENGTH..] == digest(Terminated(salt + a, '\0'))
  {
  }

  lemma NamesStartReadable(cons: Constraints, salt: seq<string>, a: seq<string>, digest: Digest)
    requires cons.maxLength >= MIN_TRUNCATED_LENGTH && a != [] && IsDigest(digest) && |Readable(cons, a)| > 0
    ensures var name := Name(cons, salt, a, digest); |name| > 0 && name[0] == Readable(cons, a)[0]
  {
  }

  /** Unless the digest confuses them, two names coincide exactly when the NUL-terminated encodings of their parts do;
      if names may start with a hyphen, the two lists must also agree on whether the first part is empty. */
  lemma NamesCoincideExactlyWithEncodings(cons: Constraints, a: seq<string>, b: seq<string>, digest: Digest)
    requires cons.maxLength >= MIN_TRUNCATED_LENGTH && a != [] && b != [] && IsDigest(digest)
    requires Separates(digest, Terminated(a, '\0'), Terminated(b, '\0'))
    ensures Name(cons, [], a, digest) == Name(cons, [], b, digest)
       <==> Terminated(a, '\0') == Terminated(b, '\0')
            && (cons.validFirstChar('-') ==> (a[0] == "" <==> b[0] == ""))
  {
    assert [] + a == a && [] + b == b;
    NamesEndInHash(cons, [], a, digest);
    NamesEndInHash(cons, [], b, digest);
    hide Name, Terminated;
    if Terminated(a, '\0') == Terminated(b, '\0') {
      SameEncoding(cons, a, b, digest);
    }
  }

  lemma SameEncoding(cons: Constraints, a: seq<string>, b: seq<string>, digest: Digest)
    requires cons.maxLength >= MIN_TRUNCATED_LENGTH && a != [] && b != [] && IsDigest(digest)
    requires Terminated(a, '\0') == Terminated(b, '\0')
    ensures Name(cons, [], a, digest) == Name(cons, [], b, digest)
       <==> (cons.validFirstChar('-') ==> (a[0] == "" <==> b[0] == ""))
  {
    hide Terminated, Readable, Repaired, Transformed, WithHash;
    assert [] + a == a && [] + b == b;
    if a[0] == "" && b[0] != "" {
      EmptyFirstPart(cons, a, b);
      NamesStartReadable(cons, [], a, digest);
      NamesStartReadable(cons, [], b, digest);
    } else if a[0] != "" && b[0] == "" {
      EmptyFirstPart(cons, b, a);
      NamesStartReadable(cons, [], a, digest);
      NamesStartReadable(cons, [], b, digest);
    } else {
      ReadableOfEncoding(cons, a);
      ReadableOfEncoding(cons, b);
    }
  }

  lemma FirstNul(parts: seq<string>)
    requires parts != [] && '\0' !in parts[0]
    ensures var s, k := Terminated(parts, '\0'), |parts[0]|;
            && k < |s| && s[k] == '\0' && (forall i | 0 <= i < k :: s[i] == parts[0][i] != '\0')
            && s[k + 1..] == Terminated(parts[1..], '\0')
  {
  }

  lemma {:induction false} EncodingDeterminesParts(a: seq<string>, b: seq<string>)
    requires forall p | p in a + b :: '\0' !in p
    requires Terminated(a, '\0') == Terminated(b, '\0')
    ensures a == b
    decreases |a|
  {
    if a != [] && b != [] {
      assert a[0] in a + b && b[0] in a + b;
      FirstNul(a);
      FirstNul(b);
      hide Terminated;
      assert |a[0]| == |b[0]|;
      forall p | p in a[1..] + b[1..]
        ensures '\0' !in p
      {
        assert p in a + b;
      }
      EncodingDeterminesParts(a[1..], b[1..]);
      assert a[0] == b[0];
      assert a == [a[0]] + a[1..] && b == [b[0]] + b[1..];
    }
  }

  /** The documentation calls names unique for their list of parts. Unless the digest confuses two inputs, they are if
      no part contains a NUL. */
  lemma UniqueWithoutNul(cons: Constraints, a: seq<string>, b: seq<string>, digest: Digest)
    requires cons.maxLength >= MIN_TRUNCATED_LENGTH && a != [] && b != [] && IsDigest(digest)
    requires Separates(digest, Terminated(a, '\0'), Terminated(b, '\0'))
    requires forall p | p in a + b :: '\0' !in p
    ensures Name(cons, [], a, digest) == Name(cons, [], b, digest) <==> a == b
  {
    assert [] + a == a && [] + b == b;
    NamesEndInHash(cons, [], a, digest);
    NamesEndInHash(cons, [], b, digest);
    if Terminated(a, '\0') == Terminated(b, '\0') {
      EncodingDeterminesParts(a, b);
    }
  }

  /** With NULs they are not, whatever the digest: one part with a NUL inside gives the name of two parts. */
  lemma NulsCollide(cons: Constraints, digest: Digest)
    requires cons.maxLength >= MIN_TRUNCATED_LENGTH && IsDigest(digest)
    ensures ["a\0b"] != ["a", "b"]
    ensures Name(cons, [], ["a\0b"], digest) == Name(cons, [], ["a", "b"], digest)
  {
    var a, b := ["a\0b"], ["a", "b"];
    assert [] + a == a && [] + b == b && b[1..] == ["b"] && b[1..][1..] == [] && a[1..] == [];
    assert Terminated(b[1..], '\0') == "b\0";
    assert Terminated(a, '\0') == "a\0b\0" == Terminated(b, '\0');
    assert Transformed("a") == "a" && Transformed("b") == "b" && Transformed("a\0b") == "a-b";
    assert TransformedParts(a) == ["a-b"] && TransformedParts(b) == ["a", "b"];
    var first := Repaired(cons, "a");
    assert ["a", "b"][0 := first] == [first, "b"] && ["a-b"][0 := first + "-b"] == [first + "-b"];
    assert [first, "b"][1..] == ["b"];
    assert Repaired(cons, "a-b") == first + "-b";
    assert Join(["b"]) == "b" && Join([first + "-b"]) == first + "-b";
    assert Join([first, "b"]) == first + "-" + "b" == first + "-b";
  }

  /** Salted names with equal digests of equal visible parts: the visible parts are determined, hidden salt only up
      to its encoding. */
  lemma SaltedInputDeterminesParts(salt: seq<string>, a: seq<string>, salt': seq<string>, b: seq<string>)
    requires Terminated(salt + a, '\0') == Terminated(salt' + b, '\0') && Terminated(a, '-') == Terminated(b, '-')
    ensures a == b && Terminated(salt, '\0') == Terminated(salt', '\0')
  {
    TerminatedConcat(salt, a, '\0');
    TerminatedConcat(salt', b, '\0');
    SameLength(a, '-', '\0');
    SameLength(b, '-', '\0');
    SplitLast(Terminated(salt, '\0'), Terminated(a, '\0'), Terminated(salt', '\0'), Terminated(b, '\0'));
    TwoMarksDetermineParts(a, b, '-', '\0');
  }

  lemma {:induction false} SameLength(parts: seq<string>, m: char, n: char)
    ensures |Terminated(parts, m)| == |Terminated(parts, n)|
  {
    if parts != [] {
      SameLength(parts[1..], m, n);
    }
  }
}
