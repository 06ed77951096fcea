/**
 Deriving a group's document id from the name an administrator types:
 every run of whitespace is removed (`/\s+/g` replaced by the empty string),
 then the result is trimmed. A name that trims to nothing is refused.
 */
module GroupId {

  /** The characters JavaScript's `\s` (and `String.prototype.trim`) treat as
      white space: tab, line feed, vertical tab, form feed, carriage return,
      space, no-break space, the Unicode space separators, the line and
      paragraph separators and the byte order mark. */
  predicate IsWhitespace(c: char)
  {
    var k := c as int;
    || (9 <= k <= 13)
    || k == 0x20 || k == 0xA0 || k == 0x1680
    || (0x2000 <= k <= 0x200A)
    || k == 0x2028 || k == 0x2029 || k == 0x202F || k == 0x205F
    || k == 0x3000 || k == 0xFEFF
  }

  predicate NoWhitespace(s: string)
  {
    forall i :: 0 <= i < |s| ==> !IsWhitespace(s[i])
  }

  predicate AllWhitespace(s: string)
  {
    forall i :: 0 <= i < |s| ==> IsWhitespace(s[i])
  }

  /** `s.replace(/\s+/g, '')`: the non-white-space characters of `s`, in order. */
  function StripWhitespace(s: string): (r: string)
    ensures NoWhitespace(r)
    ensures |r| <= |s|
    ensures r == "" <==> AllWhitespace(s)
    decreases |s|
  {
    if s == [] then []
    else if IsWhitespace(s[0]) then StripWhitespace(s[1..])
    else [s[0]] + StripWhitespace(s[1..])
  }

  /** Leading white space removed. */
  function TrimStart(s: string): (r: string)
    ensures |r| <= |s| && r == s[|s| - |r|..]
    ensures forall i :: 0 <= i < |s| - |r| ==> IsWhitespace(s[i])
    ensures r == [] || !IsWhitespace(r[0])
    decreases |s|
  {
    if s != [] && IsWhitespace(s[0]) then TrimStart(s[1..]) else s
  }

  /** Trailing white space removed. */
  function TrimEnd(s: string): (r: string)
    ensures |r| <= |s| && r == s[..|r|]
    ensures forall i :: |r| <= i < |s| ==> IsWhitespace(s[i])
    ensures r == [] || !IsWhitespace(r[|r| - 1])
    decreases |s|
  {
    if s != [] && IsWhitespace(s[|s| - 1]) then TrimEnd(s[..|s| - 1]) else s
  }

  /** `s.trim()`. */
  function Trim(s: string): string
  {
    TrimEnd(TrimStart(s))
  }

  /** `newGroupName.replace(/\s+/g, '').trim()`. */
  function DeriveId(name: string): string
  {
    Trim(StripWhitespace(name))
  }

  // ---------------------------------------------------------------------------
  // Properties

  /** A string without white space is its own trim. */
  lemma TrimNoWhitespace(s: string)
    requires NoWhitespace(s)
    ensures Trim(s) == s
  {
    assert TrimStart(s) == s by {
      if s != [] { assert !IsWhitespace(s[0]); }
    }
    if s != [] { assert !IsWhitespace(s[|s| - 1]); }
  }

  /** The trailing `.trim()` is a no-op: the id is exactly the name with all
      white space removed, and it contains no white space. */
  lemma DeriveIdIsStrip(name: string)
    ensures DeriveId(name) == StripWhitespace(name)
    ensures NoWhitespace(DeriveId(name))
  {
    TrimNoWhitespace(StripWhitespace(name));
  }

  /** Removing white space from a string that has none changes nothing, and
      only such strings are left unchanged. */
  lemma {:induction false} StripFixedPoints(s: string)
    ensures StripWhitespace(s) == s <==> NoWhitespace(s)
    decreases |s|
  {
    if s != [] {
      StripFixedPoints(s[1..]);
      if IsWhitespace(s[0]) {
        assert |StripWhitespace(s[1..])| <= |s[1..]| < |s|;
      } else {
        assert NoWhitespace(s) <==> NoWhitespace(s[1..]) by {
          if NoWhitespace(s[1..]) {
            forall i | 0 <= i < |s| ensures !IsWhitespace(s[i]) {
              if i > 0 { assert s[i] == s[1..][i - 1]; }
            }
          }
          if NoWhitespace(s) {
            forall i | 0 <= i < |s[1..]| ensures !IsWhitespace(s[1..][i]) {
              assert s[1..][i] == s[i + 1];
            }
          }
        }
        assert StripWhitespace(s) == [s[0]] + StripWhitespace(s[1..]);
        assert s == [s[0]] + s[1..];
      }
    }
  }

  /** Deriving an id from an id gives the same id. */
  lemma DeriveIdIdempotent(name: string)
    ensures DeriveId(DeriveId(name)) == DeriveId(name)
  {
    DeriveIdIsStrip(name);
    var id := DeriveId(name);
    DeriveIdIsStrip(id);
    StripFixedPoints(id);
  }

  /** Stripping distributes over concatenation. */
  lemma {:induction false} StripAppend(a: string, b: string)
    ensures StripWhitespace(a + b) == StripWhitespace(a) + StripWhitespace(b)
    decreases |a|
  {
    if a == [] {
      assert a + b == b;
    } else {
      assert (a + b)[0] == a[0];
      assert (a + b)[1..] == a[1..] + b;
      StripAppend(a[1..], b);
    }
  }

  /** Names that differ only in white space — extra, missing or moved
      spaces between the same characters — derive the same id, so the
      second `handleAddGroup` with such a name targets the first one's document. */
  lemma SameIdIgnoringWhitespace(a: string, w: string, b: string)
    requires AllWhitespace(w)
    ensures DeriveId(a + w + b) == DeriveId(a + b)
  {
    DeriveIdIsStrip(a + w + b);
    DeriveIdIsStrip(a + b);
    StripAppend(a + w, b);
    StripAppend(a, w);
    StripAppend(a, b);
  }

  /** Trimming leaves nothing exactly when the string is all white space. */
  lemma TrimEmptyIffAllWhitespace(s: string)
    ensures Trim(s) == "" <==> AllWhitespace(s)
  {
    var t := TrimStart(s);
    var off := |s| - |t|;
    if Trim(s) == "" {
      assert t == [];
    } else if t != [] {
      assert t[0] == s[off];
    }
  }

  /** The form's guard `!newGroupName.trim()` refuses a name exactly when the
      derived id would be empty, so every accepted name yields a usable id. */
  lemma GuardMatchesEmptyId(name: string)
    ensures Trim(name) == "" <==> DeriveId(name) == ""
  {
    DeriveIdIsStrip(name);
    TrimEmptyIffAllWhitespace(name);
  }

  /** Two words without white space, joined by white space, derive the id
      that is the two words written together. */
  lemma JoinedId(a: string, w: string, b: string)
    requires NoWhitespace(a) && AllWhitespace(w) && NoWhitespace(b)
    ensures DeriveId(a + w + b) == a + b
  {
    SameIdIgnoringWhitespace(a, w, b);
    DeriveIdIsStrip(a + b);
    assert NoWhitespace(a + b) by {
      forall i | 0 <= i < |a + b| ensures !IsWhitespace((a + b)[i]) {
        if i >= |a| { assert (a + b)[i] == b[i - |a|]; }
      }
    }
    StripFixedPoints(a + b);
  }

  /** "New Team" and "NewTeam" name the same group. */
  lemma NewTeamExample(name: string)
    requires name == "New Team"
    ensures DeriveId(name) == "NewTeam"
  {
    JoinedId("New", " ", "Team");
    assert name == "New" + " " + "Team";
    assert "New" + "Team" == "NewTeam";
  }
}
