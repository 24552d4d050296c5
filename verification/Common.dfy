/**
  What several components share.
*/
module Common {

  datatype Option<T> = None | Some(value: T)

  predicate IsWhiteSpace(ch: char) {
    ch == ' ' || ch == '\t'
  }

  predicate IsAlnum(ch: char) {
    '0' <= ch <= '9' || 'A' <= ch <= 'Z' || 'a' <= ch <= 'z'
  }

  /** The number of leading blanks. */
  function Leading(line: string): (n: nat)
    ensures n <= |line|
  {
    if line != [] && IsWhiteSpace(line[0]) then 1 + Leading(line[1..]) else 0
  }

  lemma {:induction false} LeadingAreBlanks(line: string)
    ensures forall i :: 0 <= i < Leading(line) ==> IsWhiteSpace(line[i])
    ensures Leading(line) < |line| ==> !IsWhiteSpace(line[Leading(line)])
  {
    if line != [] && IsWhiteSpace(line[0]) {
      LeadingAreBlanks(line[1..]);
      assert forall i :: 1 <= i < Leading(line) ==> line[i] == line[1..][i - 1];
    }
  }

  lemma Append3<T>(a: seq<T>, b: seq<T>, c: seq<T>)
    ensures a + (b + c) == (a + b) + c
  {
  }
}
