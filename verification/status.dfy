/**
 * The closed enumeration of ledger-entry statuses and its two parsers:
 * the case-sensitive `valueOf` every Java enum has, and the case-insensitive
 * `fromString` the enum declares.
 */
module TransactionStatus {
  import opened Wrappers

  /** Exactly three statuses, in declaration order. */
  datatype Status = Pending | Confirmed | Rejected

  /** A status nothing may move away from. */
  predicate IsTerminal(v: Status) {
    v == Confirmed || v == Rejected
  }

  /** The constant name of a status, as `name()` returns it. */
  function Name(v: Status): string {
    match v
    case Pending => "PENDING"
    case Confirmed => "CONFIRMED"
    case Rejected => "REJECTED"
  }

  /** Enum `valueOf`: an exact, case-sensitive match on the constant name. */
  function ValueOf(s: string): (r: Option<Status>)
    ensures forall v :: r == Some(v) <==> s == Name(v)
  {
    if s == "PENDING" then Some(Pending)
    else if s == "CONFIRMED" then Some(Confirmed)
    else if s == "REJECTED" then Some(Rejected)
    else None
  }

  predicate IsLowerAscii(c: char) {
    'a' <= c <= 'z'
  }

  /** Upper-casing of one character; only the ASCII letters a-z change. */
  function ToUpperChar(c: char): (r: char)
    ensures IsLowerAscii(c) ==> r as int == c as int - 32
    ensures !IsLowerAscii(c) ==> r == c
  {
    if IsLowerAscii(c) then (c as int - 32) as char else c
  }

  /** `String.toUpperCase` on the ASCII subset, character by character. */
  function ToUpper(s: string): (r: string)
    ensures |r| == |s|
    ensures forall i :: 0 <= i < |s| ==> r[i] == ToUpperChar(s[i])
  {
    if |s| == 0 then [] else [ToUpperChar(s[0])] + ToUpper(s[1..])
  }

  /** Two strings that differ at most in the case of their ASCII letters. */
  predicate EqualsIgnoreCase(s: string, t: string) {
    |s| == |t| && forall i :: 0 <= i < |s| ==> ToUpperChar(s[i]) == ToUpperChar(t[i])
  }

  /** `fromString`: upper-case the text, then match one of the three names; anything else fails. */
  function FromString(s: string): (r: Option<Status>)
    ensures forall v :: r == Some(v) <==> ToUpper(s) == Name(v)
  {
    match ToUpper(s)
    case "CONFIRMED" => Some(Confirmed)
    case "REJECTED" => Some(Rejected)
    case "PENDING" => Some(Pending)
    case _ => None
  }

  /** A string with no lower-case ASCII letter is its own upper-case form. */
  lemma {:induction false} ToUpperFixesUpper(s: string)
    requires forall i :: 0 <= i < |s| ==> !IsLowerAscii(s[i])
    ensures ToUpper(s) == s
  {
    if |s| > 0 {
      ToUpperFixesUpper(s[1..]);
    }
  }

  /** Round trip: parsing the name of a status gives that status back. */
  lemma FromStringName(v: Status)
    ensures FromString(Name(v)) == Some(v)
  {
    var n := Name(v);
    assert forall i :: 0 <= i < |n| ==> !IsLowerAscii(n[i]) by {
      match v
      case Pending =>
      case Confirmed =>
      case Rejected =>
    }
    ToUpperFixesUpper(n);
  }

  /** The strict parser accepts exactly the three names and inverts `Name`. */
  lemma ValueOfName(v: Status)
    ensures ValueOf(Name(v)) == Some(v)
  {
  }

  /** Case variants parse alike: `fromString` cannot tell them apart. */
  lemma FromStringIgnoresCase(s: string, t: string)
    requires EqualsIgnoreCase(s, t)
    ensures FromString(s) == FromString(t)
  {
    assert ToUpper(s) == ToUpper(t);
  }

  /** Every case variant of a name parses to its status under `fromString`. */
  lemma FromStringCaseVariant(s: string, v: Status)
    requires EqualsIgnoreCase(s, Name(v))
    ensures FromString(s) == Some(v)
  {
    FromStringIgnoresCase(s, Name(v));
    FromStringName(v);
  }

  /** The empty string, and every text that is not a case variant of a name, is rejected. */
  lemma FromStringRejectsOthers(s: string)
    requires forall v :: !EqualsIgnoreCase(s, Name(v))
    ensures FromString(s) == None
  {
  }

  /** `valueOf` is strictly narrower than `fromString`: whatever it accepts, `fromString` accepts alike. */
  lemma ValueOfRefinesFromString(s: string)
    requires ValueOf(s).Some?
    ensures FromString(s) == ValueOf(s)
  {
    FromStringName(ValueOf(s).value);
  }

  /** A lower-case name shows the two parsers differ: `valueOf` rejects what `fromString` accepts. */
  lemma ValueOfIsCaseSensitive()
    ensures ValueOf("confirmed") == None
    ensures FromString("confirmed") == Some(Confirmed)
  {
    FromStringCaseVariant("confirmed", Confirmed);
  }
}
