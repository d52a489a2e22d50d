/** The two result shapes used across the project, and ASCII character classes. */
module Wrappers {

  datatype Option<+T> = None | Some(value: T)

  datatype Result<+T, +E> = Ok(value: T) | Err(error: E)

  predicate IsDigit(c: char) {
    '0' <= c <= '9'
  }

  predicate IsLower(c: char) {
    'a' <= c <= 'z'
  }

  predicate IsUpper(c: char) {
    'A' <= c <= 'Z'
  }

  predicate IsAlnum(c: char) {
    IsDigit(c) || IsLower(c) || IsUpper(c)
  }

  /** `[A-Za-z0-9][A-Za-z0-9:._-]*` up to `limit` characters: the opaque references stored by the ledger and the inputs. */
  predicate IsOpaque(s: string, limit: nat) {
    && 0 < |s| <= limit
    && IsAlnum(s[0])
    && forall i | 0 < i < |s| :: IsAlnum(s[i]) || s[i] in ":._-"
  }

  /** The same by character code, for a reader of the pattern. */
  lemma OpaqueIff(s: string, limit: nat)
    ensures IsOpaque(s, limit) <==>
            && 1 <= |s| <= limit
            && (forall i | 0 <= i < |s| ::
                  || 48 <= s[i] as int <= 57 || 65 <= s[i] as int <= 90 || 97 <= s[i] as int <= 122
                  || (i > 0 && s[i] in [':', '.', '_', '-']))
  {
    forall i | 0 <= i < |s|
      ensures IsAlnum(s[i]) <==> 48 <= s[i] as int <= 57 || 65 <= s[i] as int <= 90 || 97 <= s[i] as int <= 122
      ensures s[i] in ":._-" <==> s[i] in [':', '.', '_', '-']
    {
    }
  }
}
