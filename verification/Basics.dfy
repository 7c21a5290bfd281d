/** Types and small facts about sequences that several modules share. */
module Basics {

  datatype Option<T> = None | Some(value: T)

  datatype Result<T> = Ok(value: T) | Err

  type Byte = b: int | 0 <= b < 256

  type Uuid = s: seq<Byte> | |s| == 16 witness seq(16, _ => 0)

  /** `t` stands in `s` at `i`. */
  predicate StandsAt(s: seq<char>, t: seq<char>, i: nat) {
    i + |t| <= |s| && forall k | 0 <= k < |t| :: s[i + k] == t[k]
  }

  lemma Associate<T>(a: seq<T>, b: seq<T>, c: seq<T>)
    ensures a + (b + c) == (a + b) + c
  {
  }

  lemma Rejoin<T>(s: seq<T>, i: nat, j: nat)
    requires i <= j <= |s|
    ensures s[i..] == s[i..j] + s[j..]
  {
  }

  lemma FirstAndRest<T>(s: seq<T>, i: nat)
    requires i < |s|
    ensures s[i..] == [s[i]] + s[i + 1..]
  {
  }

  // ----- Letters and digits

  lemma UpperAt(i: nat)
    requires i < 26
    ensures "ABCDEFGHIJKLMNOPQRSTUVWXYZ"[i] as int == 65 + i
  {
  }

  lemma LowerAt(i: nat)
    requires i < 26
    ensures "abcdefghijklmnopqrstuvwxyz"[i] as int == 97 + i
  {
  }

  lemma DigitAt(i: nat)
    requires i < 10
    ensures "0123456789"[i] as int == 48 + i
  {
  }

  lemma AlphabetIn(c: char)
    ensures c in "ABCDEFGHIJKLMNOPQRSTUVWXYZ" <==> 'A' <= c <= 'Z'
    ensures c in "abcdefghijklmnopqrstuvwxyz" <==> 'a' <= c <= 'z'
    ensures c in "0123456789" <==> '0' <= c <= '9'
  {
    if 'A' <= c <= 'Z' { UpperAt(c as int - 65); }
    if 'a' <= c <= 'z' { LowerAt(c as int - 97); }
    if '0' <= c <= '9' { DigitAt(c as int - 48); }
    if i :| 0 <= i < 26 && "ABCDEFGHIJKLMNOPQRSTUVWXYZ"[i] == c { UpperAt(i); }
    if i :| 0 <= i < 26 && "abcdefghijklmnopqrstuvwxyz"[i] == c { LowerAt(i); }
    if i :| 0 <= i < 10 && "0123456789"[i] == c { DigitAt(i); }
  }
}
