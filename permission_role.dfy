/** The document service's permission roles
    (services/document-service/.../domain/PermissionRole.java) and the lenient reading of a role
    from a request. */
module PermissionRole {
  import opened Wrappers
  import AsciiCase

  datatype Role = Viewer | Editor

  /** The enum constant's name. */
  function Name(r: Role): (name: string)
    ensures AsciiCase.ToUpper(name) == name
  {
    match r
    case Viewer => "VIEWER"
    case Editor => "EDITOR"
  }

  /** `name().toLowerCase(Locale.ROOT)`, the form used in responses and event payloads. */
  function LowerName(r: Role): (name: string)
    ensures AsciiCase.ToUpper(name) == Name(r)
    ensures name == "viewer" || name == "editor"
  {
    var name := AsciiCase.ToLower(Name(r));
    assert r.Viewer? ==> name == "viewer";
    assert r.Editor? ==> name == "editor";
    name
  }

  const RoleRequiredMessage := "Role is required"
  const NoConstantPrefix := "No enum constant com.relaydocs.documentservice.domain.PermissionRole."

  /** `PermissionRole.valueOf`: the constant with exactly this name. */
  function ValueOf(name: string): (r: Result<Role, string>)
    ensures r.Success? <==> name == "VIEWER" || name == "EDITOR"
    ensures r.Success? ==> Name(r.value) == name
    ensures r.Failure? ==> r.error == NoConstantPrefix + name
  {
    if name == "VIEWER" then Success(Viewer)
    else if name == "EDITOR" then Success(Editor)
    else Failure(NoConstantPrefix + name)
  }

  /** fromValue: null is refused with "Role is required"; otherwise the upper-cased value must
      name a constant. */
  function FromValue(value: Option<string>): (r: Result<Role, string>)
    ensures value.None? ==> r == Failure(RoleRequiredMessage)
    ensures value.Some? ==> (r.Success? <==> AsciiCase.SameIgnoringCase(value.value, "viewer") || AsciiCase.SameIgnoringCase(value.value, "editor"))
    ensures r.Success? ==> AsciiCase.SameIgnoringCase(value.value, LowerName(r.value))
  {
    match value
    case None => Failure(RoleRequiredMessage)
    case Some(v) =>
      RoleWords();
      UpperMatchesIgnoringCase(v, "viewer");
      UpperMatchesIgnoringCase(v, "editor");
      ValueOf(AsciiCase.ToUpper(v))
  }

  /** Lower-case ASCII letters only. */
  predicate LowerWord(w: string) {
    forall i :: 0 <= i < |w| ==> 'a' <= w[i] <= 'z'
  }

  /** The two lower-case names, and what upper-casing makes of them. */
  lemma RoleWords()
    ensures LowerWord("viewer") && AsciiCase.ToUpper("viewer") == "VIEWER"
    ensures LowerWord("editor") && AsciiCase.ToUpper("editor") == "EDITOR"
  {
    assert LowerName(Viewer) == "viewer" && LowerName(Editor) == "editor";
  }

  /** For a lower-case word w, upper-casing v gives upper(w) exactly when v equals w ignoring
      case. */
  lemma UpperMatchesIgnoringCase(v: string, w: string)
    requires LowerWord(w)
    ensures AsciiCase.ToUpper(v) == AsciiCase.ToUpper(w) <==> AsciiCase.SameIgnoringCase(v, w)
  {
    if AsciiCase.ToUpper(v) == AsciiCase.ToUpper(w) {
      assert |v| == |w|;
      forall i | 0 <= i < |v|
        ensures AsciiCase.LowerChar(v[i]) == AsciiCase.LowerChar(w[i])
      {
        assert AsciiCase.ToUpper(v)[i] == AsciiCase.ToUpper(w)[i];
      }
    }
    if AsciiCase.SameIgnoringCase(v, w) {
      forall i | 0 <= i < |v|
        ensures AsciiCase.ToUpper(v)[i] == AsciiCase.ToUpper(w)[i]
      {
        assert AsciiCase.LowerChar(v[i]) == AsciiCase.LowerChar(w[i]);
      }
    }
  }

  /** Every role reads back from its lower-case name, and from its constant name. */
  lemma LowerNameRoundTrip(r: Role)
    ensures FromValue(Some(LowerName(r))) == Success(r)
    ensures FromValue(Some(Name(r))) == Success(r)
  {
  }

  /** "owner" is not a role. */
  lemma OwnerIsNotARole()
    ensures FromValue(Some("owner")).Failure?
  {
  }
}
