/** Turning identifiers into single path components. */
module Names {

  const CHECKPOINT_SPECIALS := {'/', '\\', ':'}
  const WORKSPACE_SPECIALS := {'/', '\\', ':', ' '}

  /** Replaces special characters and double dots by underscores, left to right. */
  function Sanitize(s: string, specials: set<char>): string {
    if s == "" then ""
    else if s[0] in specials then "_" + Sanitize(s[1..], specials)
    else if |s| >= 2 && s[0] == '.' && s[1] == '.' then "_" + Sanitize(s[2..], specials)
    else [s[0]] + Sanitize(s[1..], specials)
  }

  /** No special character and no double dot. */
  predicate Plain(s: string, specials: set<char>) {
    forall i :: 0 <= i < |s| ==> s[i] !in specials && (i + 1 < |s| ==> !(s[i] == '.' && s[i + 1] == '.'))
  }

  /** A sanitized name is one path component and never the parent directory. */
  lemma {:induction false} SanitizedIsPlain(s: string, specials: set<char>)
    requires '_' !in specials
    ensures Plain(Sanitize(s, specials), specials) && Sanitize(s, specials) != ".."
    ensures s != "" ==> Sanitize(s, specials) != "" && (Sanitize(s, specials)[0] == '.' ==> s[0] == '.')
  {
    if s != "" {
      SanitizedIsPlain(s[1..], specials);
      if |s| >= 2 { SanitizedIsPlain(s[2..], specials); }
      var name := Sanitize(s, specials);
      assert name == [name[0]] + name[1..];
      assert forall i :: 1 <= i < |name| ==> name[i] == name[1..][i - 1];
    }
  }

  /** Every special character replaced. */
  function WithoutSpecials(s: string, specials: set<char>): string {
    seq(|s|, i requires 0 <= i < |s| => if s[i] in specials then '_' else s[i])
  }

  /** Every double dot replaced, left to right. */
  function WithoutDoubleDots(s: string): string {
    if |s| >= 2 && s[..2] == ".." then "_" + WithoutDoubleDots(s[2..])
    else if s == "" then ""
    else [s[0]] + WithoutDoubleDots(s[1..])
  }

  /** The one pass of a sanitizer does what two would: first the special characters, then the double dots. */
  lemma {:induction false} SanitizedInTwoPasses(s: string, specials: set<char>)
    requires '.' !in specials
    ensures Sanitize(s, specials) == WithoutDoubleDots(WithoutSpecials(s, specials))
  {
    if s != "" {
      var t := WithoutSpecials(s, specials);
      SanitizedInTwoPasses(s[1..], specials);
      assert t[1..] == WithoutSpecials(s[1..], specials);
      if |s| >= 2 {
        SanitizedInTwoPasses(s[2..], specials);
        assert t[2..] == WithoutSpecials(s[2..], specials);
        assert t[..2] == [t[0], t[1]];
      }
    }
  }

  /** Names that are already plain are kept, so distinct plain names stay distinct. */
  lemma {:induction false} PlainIsKept(s: string, specials: set<char>)
    requires Plain(s, specials)
    ensures Sanitize(s, specials) == s
  {
    if s != "" {
      assert forall i :: 0 <= i < |s[1..]| ==> s[1..][i] == s[i + 1];
      PlainIsKept(s[1..], specials);
      assert s == [s[0]] + s[1..];
    }
  }
}
