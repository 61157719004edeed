/** The command safety gate: a case-insensitive substring denylist. */
module Safety {
  import opened Text

  /** The denylist, in the order the gate tries it. */
  const DangerousPatterns: seq<string> :=
    ["rm -rf /", "rm -rf /usr", "rm -rf /bin", "dd if=", "mkfs", "fdisk", "shred", "cryptsetup"]

  /** The gate's verdict: some pattern occurs in the ASCII-lower-cased command. */
  predicate IsDangerous(command: string) {
    exists i :: 0 <= i < |DangerousPatterns| && Contains(ToLower(command), DangerousPatterns[i])
  }

  /** `isDangerousCommand`: lower-cases once, then tries the patterns in order and stops at the first hit. */
  method IsDangerousCommand(command: string) returns (dangerous: bool)
    ensures dangerous <==> IsDangerous(command)
  {
    var lowered := ToLower(command);
    for i := 0 to |DangerousPatterns|
      invariant forall k :: 0 <= k < i ==> !Contains(lowered, DangerousPatterns[k])
    {
      if Contains(lowered, DangerousPatterns[i]) {
        return true;
      }
    }
    return false;
  }

  /** Changing the case of letters never changes the verdict, so an upper-cased variant of a denied command is denied too. */
  lemma CaseNeverMatters(a: string, b: string)
    requires SameIgnoringCase(a, b)
    ensures IsDangerous(a) <==> IsDangerous(b)
  {
    SameIgnoringCaseLowersEqual(a, b);
  }

  lemma ContainsPrefixOfPattern(s: string, p: string, q: string)
    requires Contains(s, p) && HasPrefix(p, q)
    ensures Contains(s, q)
  {
    var i :| 0 <= i <= |s| - |p| && OccursAt(s, p, i);
    assert s[i..i + |q|] == s[i..i + |p|][..|q|];
    assert OccursAt(s, q, i);
  }

  lemma MissingCharacterRulesOut(s: string, p: string, k: int)
    requires 0 <= k < |p| && p[k] !in s
    ensures !Contains(s, p)
  {
    forall i | 0 <= i <= |s| - |p|
      ensures !OccursAt(s, p, i)
    {
      assert s[i + k] in s;
    }
  }

  /** "rm -rf /usr" and "rm -rf /bin" never decide anything: "rm -rf /" already occurs wherever they do. */
  lemma SixPatternsDecide(command: string)
    ensures IsDangerous(command) <==>
      exists p :: p in ["rm -rf /", "dd if=", "mkfs", "fdisk", "shred", "cryptsetup"] && Contains(ToLower(command), p)
  {
    var lowered := ToLower(command);
    if IsDangerous(command) {
      var i :| 0 <= i < |DangerousPatterns| && Contains(lowered, DangerousPatterns[i]);
      if i == 1 || i == 2 {
        ContainsPrefixOfPattern(lowered, DangerousPatterns[i], "rm -rf /");
      }
    }
    if exists p :: p in ["rm -rf /", "dd if=", "mkfs", "fdisk", "shred", "cryptsetup"] && Contains(lowered, p) {
      var p :| p in ["rm -rf /", "dd if=", "mkfs", "fdisk", "shred", "cryptsetup"] && Contains(lowered, p);
      assert p in DangerousPatterns;
      var i :| 0 <= i < |DangerousPatterns| && DangerousPatterns[i] == p;
    }
  }

  /** The empty command is never denied (every pattern is non-empty). */
  lemma EmptyIsNotDangerous()
    ensures !IsDangerous("")
  {
  }

  /** A command wrapped in sudo is still caught by the "rm -rf /" pattern. */
  lemma SudoRemoveRootIsDenied()
    ensures IsDangerous("sudo rm -rf /")
  {
    var lowered := ToLower("sudo rm -rf /");
    assert lowered == "sudo rm -rf /";
    assert OccursAt(lowered, DangerousPatterns[0], 5);
  }

  /** The denylist has no entry for permission changes: "chmod 777 /" passes the gate. */
  lemma Chmod777IsNotDenied()
    ensures !IsDangerous("chmod 777 /")
  {
    var lowered := "chmod 777 /";
    ChmodLacksLetters(lowered);
    MissingCharacterRulesOut(lowered, DangerousPatterns[0], 0);
    MissingCharacterRulesOut(lowered, DangerousPatterns[1], 0);
    MissingCharacterRulesOut(lowered, DangerousPatterns[2], 0);
    MissingCharacterRulesOut(lowered, DangerousPatterns[3], 5);
    MissingCharacterRulesOut(lowered, DangerousPatterns[4], 1);
    MissingCharacterRulesOut(lowered, DangerousPatterns[5], 0);
    MissingCharacterRulesOut(lowered, DangerousPatterns[6], 3);
    MissingCharacterRulesOut(lowered, DangerousPatterns[7], 1);
  }

  lemma ChmodLacksLetters(s: string)
    requires s == "chmod 777 /"
    ensures ToLower(s) == s
    ensures 'r' !in s && '=' !in s && 'k' !in s && 'f' !in s && 'e' !in s
  {
  }
}
