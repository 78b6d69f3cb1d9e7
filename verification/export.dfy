/**
  The download name of the "Export" button: the thread's title (or "chat"
  when it is empty) with every character outside `[A-Za-z0-9_-]` replaced
  by `_`, followed by ".json". The regular expression has no `u` flag, so it
  matches UTF-16 code units: a character outside the Basic Multilingual
  Plane is two code units and becomes two underscores.
 */
module Export {
  import opened JsString
  import opened Threads

  /** The characters `/[^a-z0-9-_]/gi` leaves alone. */
  predicate IsFileNameChar(c: char) {
    ('a' <= c <= 'z') || ('A' <= c <= 'Z') || ('0' <= c <= '9') || c == '-' || c == '_'
  }

  /** What one character becomes: itself, or one underscore per UTF-16 code unit. */
  function SanitizeChar(c: char): string {
    if IsFileNameChar(c) then [c] else if c as int < 0x1_0000 then "_" else "__"
  }

  /** `s.replace(/[^a-z0-9-_]/gi, '_')`. */
  function Sanitize(s: string): (r: string)
    ensures forall k :: 0 <= k < |r| ==> IsFileNameChar(r[k])
    ensures |r| == |Utf16(s)|
    ensures (forall k :: 0 <= k < |s| ==> IsFileNameChar(s[k])) ==> r == s
  {
    if |s| == 0 then []
    else
      var p := s[..|s| - 1];
      var c := s[|s| - 1];
      assert Utf16(s) == Utf16(p) + Utf16Units(c);
      assert s == p + [c];
      Sanitize(p) + SanitizeChar(c)
  }

  /** A UTF-16 code unit the regular expression leaves alone: an ASCII letter, digit, `-` or `_`. */
  predicate KeptUnit(u: int) {
    0 <= u < 0x80 && IsFileNameChar(u as char)
  }

  /**
    The replacement works on code units: unit `k` of the input becomes
    output character `k`, kept when allowed and `_` otherwise. Both units
    of a surrogate pair are therefore replaced.
   */
  lemma {:induction false} SanitizeUnits(s: string)
    ensures |Sanitize(s)| == |Utf16(s)|
    ensures forall k :: 0 <= k < |Utf16(s)| ==>
      Sanitize(s)[k] == if KeptUnit(Utf16(s)[k]) then Utf16(s)[k] as char else '_'
  {
    if |s| > 0 {
      var p := s[..|s| - 1];
      var c := s[|s| - 1];
      SanitizeUnits(p);
      LastCharUnits(c);
      var u := Utf16(p);
      assert Utf16(s) == u + Utf16Units(c);
      assert Sanitize(s) == Sanitize(p) + SanitizeChar(c);
      forall k | 0 <= k < |Utf16(s)|
        ensures Sanitize(s)[k] == if KeptUnit(Utf16(s)[k]) then Utf16(s)[k] as char else '_'
      {
        if k < |u| {
          assert Sanitize(s)[k] == Sanitize(p)[k];
          assert Utf16(s)[k] == u[k];
        } else {
          assert Sanitize(s)[k] == SanitizeChar(c)[k - |u|];
          assert Utf16(s)[k] == Utf16Units(c)[k - |u|];
        }
      }
    }
  }

  /** One character's output, unit by unit. */
  lemma LastCharUnits(c: char)
    ensures |SanitizeChar(c)| == |Utf16Units(c)|
    ensures forall j :: 0 <= j < |Utf16Units(c)| ==>
      SanitizeChar(c)[j] == if KeptUnit(Utf16Units(c)[j]) then Utf16Units(c)[j] as char else '_'
  {
    if IsFileNameChar(c) {
      assert c as int < 0x80;
    }
  }

  /** Sanitizing a name that is already safe leaves it as it is. */
  lemma SanitizeIdempotent(s: string)
    ensures Sanitize(Sanitize(s)) == Sanitize(s)
  {
  }

  /**
    On text inside the Basic Multilingual Plane the replacement is one for
    one: each character is kept when allowed and turned into `_` otherwise.
   */
  lemma {:induction false} SanitizePointwise(s: string)
    requires forall k :: 0 <= k < |s| ==> s[k] as int < 0x1_0000
    ensures |Sanitize(s)| == |s|
    ensures forall k :: 0 <= k < |s| ==> Sanitize(s)[k] == if IsFileNameChar(s[k]) then s[k] else '_'
  {
    if |s| > 0 {
      var p := s[..|s| - 1];
      assert forall k :: 0 <= k < |p| ==> p[k] == s[k];
      SanitizePointwise(p);
    }
  }

  /** The exported file's name: a non-empty safe stem and the ".json" extension. */
  function ExportFileName(t: Thread): (r: string)
    ensures |r| > 5 && r[|r| - 5..] == ".json"
    ensures forall k :: 0 <= k < |r| - 5 ==> IsFileNameChar(r[k])
    ensures t.title == "" ==> r == "chat.json"
    ensures t.title != "" ==> |r| - 5 == |Utf16(t.title)| && forall k :: 0 <= k < |r| - 5 ==>
      r[k] == if KeptUnit(Utf16(t.title)[k]) then Utf16(t.title)[k] as char else '_'
  {
    if t.title == "" then Sanitize("chat") + ".json"
    else
      var stem := Sanitize(t.title);
      SanitizeUnits(t.title);
      var r := stem + ".json";
      assert forall k :: 0 <= k < |stem| ==> r[k] == stem[k];
      r
  }
}
