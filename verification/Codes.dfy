/** Generated codes: the instance's letter and seven random letters of the alphabet. The
    letter tells every instance whose log to read. */
module Codes {
  import opened LogLine
  import opened Instance

  const CODE_LEN := 8

  /** ALPHABET[i]: digits, then lower case, then upper case. */
  function Letter(i: Id): char {
    if i < 10 then ('0' as int + i) as char
    else if i < 36 then ('a' as int + i - 10) as char
    else ('A' as int + i - 36) as char
  }

  /** The index of a letter, -1 for any other char. */
  function AlphaIdx(c: char): int {
    if '0' <= c <= '9' then c as int - '0' as int
    else if 'a' <= c <= 'z' then c as int - 'a' as int + 10
    else if 'A' <= c <= 'Z' then c as int - 'A' as int + 36
    else -1
  }

  lemma LetterIndex(c: char, i: Id)
    ensures Letter(i) == c <==> AlphaIdx(c) == i
  {}

  function ByteIdx(b: nat): (i: int)
    requires b < 256
    ensures -1 <= i < MAX_INSTANCES
  {
    AlphaIdx(b as char)
  }

  /** The table built at start-up: for a byte the index of its letter, and -1 for others. */
  method BuildAlphaIdx() returns (t: array<int>)
    ensures fresh(t) && t.Length == 256
    ensures forall b :: 0 <= b < 256 ==> t[b] == ByteIdx(b)
  {
    t := new int[256];
    for b := 0 to 256
      invariant forall i :: 0 <= i < b ==> t[i] == -1
    {
      t[b] := -1;
    }
    for i := 0 to MAX_INSTANCES
      invariant forall b :: 0 <= b < 256 ==> t[b] == if ByteIdx(b) < i then ByteIdx(b) else -1
    {
      var c := Letter(i);
      LetterIndex(c, i);
      t[c as int] := i;
      forall b | 0 <= b < 256 ensures ByteIdx(b) == i <==> b == c as int {
        LetterIndex(b as char, i);
      }
    }
  }

  /** Seven letters of the alphabet. */
  ghost predicate Suffix(s: string) {
    |s| == CODE_LEN - 1 && forall j :: 0 <= j < |s| ==> AlphaIdx(s[j]) >= 0
  }

  /** `randSuffix`: every random byte picks a letter. */
  method RandSuffix(buf: seq<nat>) returns (s: string)
    requires |buf| == CODE_LEN - 1
    ensures Suffix(s)
    ensures forall k :: 0 <= k < |s| ==> AlphaIdx(s[k]) == buf[k] % MAX_INSTANCES
  {
    s := "";
    for k := 0 to CODE_LEN - 1
      invariant |s| == k && forall j :: 0 <= j < k ==> AlphaIdx(s[j]) == buf[j] % MAX_INSTANCES
    {
      LetterIndex(Letter(buf[k] % MAX_INSTANCES), buf[k] % MAX_INSTANCES);
      s := s + [Letter(buf[k] % MAX_INSTANCES)];
    }
  }

  function Generated(me: Id, suffix: string): string {
    [Letter(me)] + suffix
  }

  /** The code came from these random draws. */
  predicate Drawn(me: Id, draws: seq<string>, code: string) {
    exists m :: 0 <= m < |draws| && code == Generated(me, draws[m])
  }

  /** A generated code is a legal code. */
  lemma GeneratedOK(me: Id, suffix: string)
    requires Suffix(suffix)
    ensures CodeOK(Generated(me, suffix))
  {
    LetterIndex(Letter(me), me);
    var s := Generated(me, suffix);
    forall k | 0 <= k < |s| ensures CodeChar(s[k]) {
      assert AlphaIdx(s[k]) >= 0;
    }
  }

  /** Distinct instances never generate the same code, and a code's letter names its owner. */
  lemma OwnerLetter(me: Id, other: Id, s: string, t: string)
    ensures AlphaIdx(Generated(me, s)[0]) == me
    ensures me != other ==> Generated(me, s) != Generated(other, t)
  {
    LetterIndex(Letter(me), me);
    LetterIndex(Letter(other), other);
    assert Generated(me, s)[0] == Letter(me) && Generated(other, t)[0] == Letter(other);
  }
}
