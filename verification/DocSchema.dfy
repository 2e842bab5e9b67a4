/** The portable distribution document and the check every import runs first. */
module DocSchema {
  import opened Wrappers

  const API_VERSION := "osfabricum/v1"
  const KIND := "Distribution"

  /** A JSON object whose content no operation looks into. */
  type JsonObject = map<string, string>

  datatype Inputs = NoInputs | InputsNotMapping | InputsObject(fields: JsonObject)

  datatype ProfileDoc =
    | NotMapping
    | ProfileDoc(name: Option<string>, inherits: Option<string>, cls: Option<string>, inputs: Inputs)

  /** A key that may be missing, null, or text. */
  datatype Channel = Absent | Null | Text(text: string)

  datatype Metadata = Metadata(name: Option<string>, description: Option<string>, channel: Channel,
                               cls: Option<string>, metadata: Option<JsonObject>)

  datatype Profiles = Missing | NotList | ProfileList(list: seq<ProfileDoc>)

  /** `metadata` is `None` when the key is missing or not a mapping. */
  datatype Doc =
    | NotADocument
    | Doc(apiVersion: Option<string>, kind: Option<string>, metadata: Option<Metadata>, profiles: Profiles)

  datatype Problem =
    | DocumentNotMapping
    | BadApiVersion
    | BadKind
    | NameRequired
    | ProfilesNotList
    | ProfileNameRequired(index: nat)
    | DuplicateProfile(name: string)
    | InputsMustBeMapping(index: nat)

  function ProfileDocs(doc: Doc): seq<ProfileDoc>
    requires doc.Doc?
  {
    if doc.profiles.ProfileList? then doc.profiles.list else []
  }

  predicate NamedProfiles(ps: seq<ProfileDoc>) {
    forall i :: 0 <= i < |ps| ==> ps[i].ProfileDoc? && Truthy(ps[i].name) && !ps[i].inputs.InputsNotMapping?
  }

  predicate DistinctNames(ps: seq<ProfileDoc>)
    requires NamedProfiles(ps)
  {
    forall i, j :: 0 <= i < j < |ps| ==> ps[i].name != ps[j].name
  }

  predicate WellFormed(doc: Doc) {
    && doc.Doc?
    && doc.apiVersion == Some(API_VERSION)
    && doc.kind == Some(KIND)
    && doc.metadata.Some?
    && Truthy(doc.metadata.value.name)
    && !doc.profiles.NotList?
    && NamedProfiles(ProfileDocs(doc))
    && DistinctNames(ProfileDocs(doc))
  }

  predicate HasName(p: ProfileDoc) {
    p.ProfileDoc? && Truthy(p.name)
  }

  predicate Called(p: ProfileDoc, name: string) {
    HasName(p) && p.name == Some(name)
  }

  /** What each problem says about the entries. */
  predicate EntryProblem(ps: seq<ProfileDoc>, e: Problem) {
    match e
    case ProfileNameRequired(i) => i < |ps| && !HasName(ps[i])
    case DuplicateProfile(name) => exists i, j :: 0 <= i < j < |ps| && Called(ps[i], name) && Called(ps[j], name)
    case InputsMustBeMapping(i) => i < |ps| && HasName(ps[i]) && ps[i].inputs.InputsNotMapping?
    case _ => false
  }

  /** What each problem says about the document. */
  predicate HasProblem(doc: Doc, e: Problem) {
    match e
    case DocumentNotMapping => doc.NotADocument?
    case BadApiVersion => doc.Doc? && doc.apiVersion != Some(API_VERSION)
    case BadKind => doc.Doc? && doc.kind != Some(KIND)
    case NameRequired => doc.Doc? && (doc.metadata.None? || !Truthy(doc.metadata.value.name))
    case ProfilesNotList => doc.Doc? && doc.profiles.NotList?
    case _ => doc.Doc? && EntryProblem(ProfileDocs(doc), e)
  }

  /** Well-formed documents are those without a problem of any kind. */
  lemma WellFormedExactly(doc: Doc)
    ensures WellFormed(doc) <==> forall e :: !HasProblem(doc, e)
  {
    if !WellFormed(doc) {
      var e := SomeProblem(doc);
      assert HasProblem(doc, e);
    }
  }

  lemma SomeProblem(doc: Doc) returns (e: Problem)
    requires !WellFormed(doc)
    ensures HasProblem(doc, e)
  {
    if doc.NotADocument? {
      return DocumentNotMapping;
    }
    if doc.profiles.NotList? {
      return ProfilesNotList;
    }
    var ps := ProfileDocs(doc);
    if i :| 0 <= i < |ps| && !HasName(ps[i]) {
      return ProfileNameRequired(i);
    }
    if i :| 0 <= i < |ps| && ps[i].inputs.InputsNotMapping? {
      return InputsMustBeMapping(i);
    }
    if !DistinctNames(ps) {
      var i, j :| 0 <= i < j < |ps| && ps[i].name == ps[j].name;
      assert Called(ps[i], ps[i].name.value) && Called(ps[j], ps[i].name.value);
      return DuplicateProfile(ps[i].name.value);
    }
    e := if doc.apiVersion != Some(API_VERSION) then BadApiVersion else if doc.kind != Some(KIND) then BadKind else NameRequired;
  }

  /** The problems that entry `i` adds. */
  predicate AddsProblem(ps: seq<ProfileDoc>, i: nat, e: Problem)
    requires i < |ps|
  {
    match e
    case ProfileNameRequired(k) => k == i && !HasName(ps[i])
    case DuplicateProfile(name) => Called(ps[i], name) && exists j :: 0 <= j < i && Called(ps[j], name)
    case InputsMustBeMapping(k) => k == i && HasName(ps[i]) && ps[i].inputs.InputsNotMapping?
    case _ => false
  }

  lemma EntryProblemNext(ps: seq<ProfileDoc>, i: nat, e: Problem)
    requires i < |ps|
    ensures EntryProblem(ps[..i + 1], e) <==> EntryProblem(ps[..i], e) || AddsProblem(ps, i, e)
  {
    var before, after := ps[..i], ps[..i + 1];
    if e.DuplicateProfile? && EntryProblem(before, e) {
      var j, k :| 0 <= j < k < i && Called(before[j], e.name) && Called(before[k], e.name);
      assert Called(after[j], e.name) && Called(after[k], e.name);
    }
    if e.DuplicateProfile? && AddsProblem(ps, i, e) {
      var j :| 0 <= j < i && Called(ps[j], e.name);
      assert Called(after[j], e.name) && Called(after[i], e.name);
    }
    if e.DuplicateProfile? && EntryProblem(after, e) {
      var j, k :| 0 <= j < k < i + 1 && Called(after[j], e.name) && Called(after[k], e.name);
      assert Called(ps[j], e.name);
      assert k < i ==> Called(before[j], e.name) && Called(before[k], e.name);
    }
  }

  /** Lists exactly the problems that the document has; none exactly for well-formed documents. */
  method ValidateDoc(doc: Doc) returns (errors: seq<Problem>)
    ensures forall e :: e in errors <==> HasProblem(doc, e)
    ensures errors == [] <==> WellFormed(doc)
  {
    WellFormedExactly(doc);
    errors := [];
    if doc.NotADocument? {
      return [DocumentNotMapping];
    }
    if doc.apiVersion != Some(API_VERSION) {
      errors := errors + [BadApiVersion];
    }
    if doc.kind != Some(KIND) {
      errors := errors + [BadKind];
    }
    if doc.metadata.None? || !Truthy(doc.metadata.value.name) {
      errors := errors + [NameRequired];
    }
    if doc.profiles.NotList? {
      errors := errors + [ProfilesNotList];
    } else {
      var found := ValidateProfiles(ProfileDocs(doc));
      errors := errors + found;
    }
    if errors != [] {
      assert errors[0] in errors && HasProblem(doc, errors[0]);
    }
  }

  method ValidateProfiles(ps: seq<ProfileDoc>) returns (errors: seq<Problem>)
    ensures forall e :: e in errors <==> EntryProblem(ps, e)
  {
    errors := [];
    var seen: set<string> := {};
    var i := 0;
    while i < |ps|
      invariant 0 <= i <= |ps|
      invariant forall n :: n in seen <==> exists j :: 0 <= j < i && Called(ps[j], n)
      invariant forall e :: e in errors <==> EntryProblem(ps[..i], e)
    {
      var p := ps[i];
      ghost var before := errors;
      if !HasName(p) {
        errors := errors + [ProfileNameRequired(i)];
      } else {
        var name := p.name.value;
        if name in seen {
          errors := errors + [DuplicateProfile(name)];
        }
        seen := seen + {name};
        if p.inputs.InputsNotMapping? {
          errors := errors + [InputsMustBeMapping(i)];
        }
      }
      forall e ensures e in errors <==> e in before || AddsProblem(ps, i, e) {
      }
      forall e ensures EntryProblem(ps[..i + 1], e) <==> EntryProblem(ps[..i], e) || AddsProblem(ps, i, e) {
        EntryProblemNext(ps, i, e);
      }
      i := i + 1;
    }
    assert ps[..|ps|] == ps;
  }
}
