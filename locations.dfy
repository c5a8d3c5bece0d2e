/**
  Location names and URI-safe text: stripping the "urban area" suffix,
  matching a candidate name against the reference list of valid locations,
  and rewriting text so it can close a URI.
*/
module Locations {
  import opened PyStr

  // ---------------------------------------------------------------------------
  // clean_location_name

  const UrbanAreaSuffix := " ua"

  /** `clean_location_name`: one trailing " ua" is dropped, nothing else changes. */
  function CleanLocationName(name: string): (r: string)
    ensures |r| <= |name| && r == name[..|r|]
    ensures r == name <==> !EndsWith(name, UrbanAreaSuffix)
    ensures r != name ==> |r| == |name| - 3
  {
    if EndsWith(name, UrbanAreaSuffix) then name[..|name| - 3] else name
  }

  /** Appending the suffix and cleaning gives the name back. */
  lemma CleanLocationNameRemovesSuffix(name: string)
    ensures CleanLocationName(name + UrbanAreaSuffix) == name
  {
    var s := name + UrbanAreaSuffix;
    assert s[|s| - 3..] == UrbanAreaSuffix;
    assert s[..|s| - 3] == name;
  }

  /** Only one suffix goes: "x ua ua" becomes "x ua", which cleans again to "x". */
  lemma CleanLocationNameOnce(name: string)
    ensures CleanLocationName(name + UrbanAreaSuffix + UrbanAreaSuffix) == name + UrbanAreaSuffix
    ensures CleanLocationName(CleanLocationName(name + UrbanAreaSuffix + UrbanAreaSuffix)) == name
  {
    CleanLocationNameRemovesSuffix(name + UrbanAreaSuffix);
    CleanLocationNameRemovesSuffix(name);
  }

  // ---------------------------------------------------------------------------
  // validate_location

  /** Whether reference entry `entry` validates candidate `name`: a
      case-insensitive substring test. */
  predicate Matches(name: string, entry: string) {
    Contains(Lower(name), Lower(entry))
  }

  /** `validate_location`: the first reference entry that matches, as written
      in the reference list, or None. */
  function ValidateLocation(name: string, reference: seq<string>): Option<string> {
    if reference == [] then None
    else if Matches(name, reference[0]) then Some(reference[0])
    else ValidateLocation(name, reference[1..])
  }

  /** No entry matches exactly when validation gives None. */
  lemma {:induction false} ValidateLocationNone(name: string, reference: seq<string>)
    ensures ValidateLocation(name, reference).None? <==> forall i :: 0 <= i < |reference| ==> !Matches(name, reference[i])
  {
    if reference != [] {
      ValidateLocationNone(name, reference[1..]);
      assert forall i :: 1 <= i < |reference| ==> reference[i] == reference[1..][i - 1];
    }
  }

  /** The entry validation returns is the first matching one. */
  lemma {:induction false} ValidateLocationFirst(name: string, reference: seq<string>, i: nat)
    requires i < |reference| && Matches(name, reference[i])
    requires forall j :: 0 <= j < i ==> !Matches(name, reference[j])
    ensures ValidateLocation(name, reference) == Some(reference[i])
  {
    if i > 0 {
      assert !Matches(name, reference[0]);
      assert forall j :: 0 <= j < i - 1 ==> reference[1..][j] == reference[j + 1];
      ValidateLocationFirst(name, reference[1..], i - 1);
    }
  }

  /** What validation returns is a matching entry of the reference list. */
  lemma {:induction false} ValidateLocationFromReference(name: string, reference: seq<string>)
    requires ValidateLocation(name, reference).Some?
    ensures ValidateLocation(name, reference).value in reference
    ensures Matches(name, ValidateLocation(name, reference).value)
  {
    if !Matches(name, reference[0]) {
      ValidateLocationFromReference(name, reference[1..]);
    }
  }

  lemma LowerCharIdempotent(c: char)
    ensures LowerChar(LowerChar(c)) == LowerChar(c)
  {
  }

  lemma LowerIdempotent(s: string)
    ensures Lower(Lower(s)) == Lower(s)
  {
    LowerEachChar(s);
    LowerEachChar(Lower(s));
    forall i | 0 <= i < |s|
      ensures Lower(Lower(s))[i] == Lower(s)[i]
    {
      LowerCharIdempotent(s[i]);
    }
  }

  /** The candidate's case does not matter. */
  lemma {:induction false} ValidateLocationIgnoresCase(name: string, reference: seq<string>)
    ensures ValidateLocation(Lower(name), reference) == ValidateLocation(name, reference)
  {
    LowerIdempotent(name);
    if reference != [] {
      ValidateLocationIgnoresCase(name, reference[1..]);
    }
  }

  // ---------------------------------------------------------------------------
  // sanitize_uri

  /** A regular-expression word character (`\w`), ASCII only. */
  predicate IsWordChar(c: char) {
    ('a' <= c <= 'z') || ('A' <= c <= 'Z') || IsDigit(c) || c == '_'
  }

  /** The characters `[\w\-]` that the substitution keeps. */
  predicate IsUriChar(c: char) {
    IsWordChar(c) || c == '-'
  }

  /** The substitution `[^\w\-]` to `_`, one character for one. */
  function ReplaceDisallowed(value: string): (r: string)
    ensures |r| == |value|
    ensures forall i :: 0 <= i < |value| ==> r[i] == if IsUriChar(value[i]) then value[i] else '_'
  {
    seq(|value|, i requires 0 <= i < |value| => if IsUriChar(value[i]) then value[i] else '_')
  }

  /** Text fit to close a URI: only kept characters, and no leading digit. */
  predicate UriSafe(s: string) {
    s != [] && !IsDigit(s[0]) && forall i :: 0 <= i < |s| ==> IsUriChar(s[i])
  }

  /** `sanitize_uri`; indexing the first character of empty text raises IndexError. */
  function SanitizeUri(value: string): (r: Result<string>)
    ensures r.Err? <==> value == []
    ensures r.Ok? ==> UriSafe(r.value)
    ensures r.Ok? ==> |r.value| == |value| + (if IsDigit(value[0]) then 1 else 0)
  {
    var replaced := ReplaceDisallowed(value);
    if replaced == [] then Err("string index out of range")
    else if IsDigit(replaced[0]) then Ok("_" + replaced)
    else Ok(replaced)
  }

  /** Each input character lands at its own position, shifted by one when
      the `_` prefix was added, as itself or as `_`. */
  lemma SanitizeUriPositions(value: string)
    requires value != []
    ensures var offset := if IsDigit(value[0]) then 1 else 0;
      forall i :: 0 <= i < |value| ==>
        SanitizeUri(value).value[i + offset] == if IsUriChar(value[i]) then value[i] else '_'
  {
  }

  /** Safe text is left as it is, so sanitising twice is sanitising once. */
  lemma SanitizeUriKeepsSafe(s: string)
    requires UriSafe(s)
    ensures SanitizeUri(s) == Ok(s)
  {
    assert ReplaceDisallowed(s) == s;
  }

  lemma SanitizeUriIdempotent(value: string)
    requires value != []
    ensures SanitizeUri(SanitizeUri(value).value) == SanitizeUri(value)
  {
    SanitizeUriKeepsSafe(SanitizeUri(value).value);
  }

  /** "3 Main St!" becomes "_3_Main_St_". */
  lemma SanitizeUriExample(value: string)
    requires value == "3 Main St!"
    ensures SanitizeUri(value) == Ok("_3_Main_St_")
  {
    var replaced := ReplaceDisallowed(value);
    assert replaced == "3_Main_St_";
    assert IsDigit(replaced[0]);
    assert "_" + replaced == "_3_Main_St_";
  }
}
