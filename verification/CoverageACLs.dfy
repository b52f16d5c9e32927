/**
  coverage_enumerator.go's fixed ACL text lists, read by the parser of internal/aclxattr: every
  list a coverage plan carries resolves, and default entries stand on directories only.
 */
module CoverageACLs {
  import opened Wrappers
  import opened Strings
  import opened AclText
  import Acl
  import AclResolve
  import opened CoveragePlan

  /** A field without white space and separators. */
  predicate Clean(s: string) {
    forall i :: 0 <= i < |s| ==> s[i] != ':' && !IsSpace(s[i])
  }

  predicate ShortRole(role: string) {
    role == "u" || role == "g" || role == "m" || role == "o"
  }

  lemma FieldsParse(isDefault: bool, role: string, qualifier: string, perm: string)
    requires ShortRole(role) && Clean(qualifier) && Clean(perm) && perm != ""
    ensures var body := Fields(role, qualifier, perm);
      ParseTextEntry(if isDefault then DEFAULT_PREFIX + body else body) == ParseClean(isDefault, role, qualifier, ParsePerm(perm))
  {
    FieldsSplit(isDefault, role, qualifier, perm);
    BodyEnds(role, qualifier, perm);
    var body := Fields(role, qualifier, perm);
    hide ShortRole, Clean, ParseTextEntry, Fields, ParseFields, ParseClean, ParsePerm, Split, Trimmed;
    if isDefault { ParseDefault(body); } else { ParsePlain(body); }
  }

  lemma FieldsSplit(isDefault: bool, role: string, qualifier: string, perm: string)
    requires ShortRole(role) && Clean(qualifier) && Clean(perm)
    ensures ParseFields(isDefault, Split(Fields(role, qualifier, perm), ':')) == ParseClean(isDefault, role, qualifier, ParsePerm(perm))
  {
    RoleSurvives(role);
    CleanSurvives(qualifier);
    CleanSurvives(perm);
    hide ShortRole, Clean, Fields, ParseFields, ParseClean, ParsePerm, Split, Trim, Lower;
    SplitFields(role, qualifier, perm);
    ThreeFields(isDefault, role, qualifier, perm);
  }

  lemma RoleSurvives(role: string)
    requires ShortRole(role)
    ensures Lower(Trim(role)) == role && ':' !in role
  {
    hide Lower, Trim;
    WordIsClean(role);
  }

  lemma CleanSurvives(s: string)
    requires Clean(s)
    ensures Trim(s) == s && ':' !in s
  {
    hide Trim, IsSpace;
    CleanTrim(s);
  }

  lemma BodyEnds(role: string, qualifier: string, perm: string)
    requires ShortRole(role) && Clean(perm) && perm != ""
    ensures var s := Fields(role, qualifier, perm); s != "" && s[0] != 'd' && Trimmed(s)
  {
    hide Fields;
    FieldsEnds(role, qualifier, perm);
  }

  /** The text parses, to an entry with a small id if any, with the prefix it shows. */
  predicate Fine(text: string, isDefault: bool) {
    var t := ParseTextEntry(text);
    t.Ok? && t.value.isDefault == isDefault && !(Acl.Named(t.value.entry) && t.value.entry.id == Acl.UNDEFINED_ID)
  }

  predicate PermText(perm: string) {
    perm == "rwx" || perm == "rw-" || perm == "r-x" || perm == "r--" || perm == "---"
  }

  lemma PermTextParses(perm: string)
    requires PermText(perm)
    ensures perm != "" && Clean(perm) && ParsePerm(perm).Some?
  {
  }

  lemma BaseTextFine(text: string, isDefault: bool, role: string, perm: string)
    requires ShortRole(role) && PermText(perm)
    requires var body := Fields(role, "", perm); text == if isDefault then DEFAULT_PREFIX + body else body
    ensures Fine(text, isDefault)
  {
    PermTextParses(perm);
    BaseFieldsFine(isDefault, role, ParsePerm(perm));
    assert Clean("");
    hide ParseTextEntry, Fields, PermText, ParsePerm, ParseClean, Clean, ShortRole;
    FieldsParse(isDefault, role, "", perm);
  }

  lemma BaseFieldsFine(isDefault: bool, role: string, perm: Option<Acl.U16>)
    requires ShortRole(role) && perm.Some?
    ensures var t := ParseClean(isDefault, role, "", perm);
      t.Ok? && t.value.isDefault == isDefault && !Acl.Named(t.value.entry)
  {
  }

  lemma NamedTextFine(text: string, role: string, perm: string)
    requires (role == "u" || role == "g") && PermText(perm) && text == Fields(role, "1000", perm)
    ensures Fine(text, false)
  {
    ThousandParses();
    PermTextParses(perm);
    hide ParseTextEntry, Fields, ParseID, Clean, PermText, ParsePerm;
    FieldsParse(false, role, "1000", perm);
  }

  lemma ThousandParses()
    ensures ParseID("1000") == Some(1000) && Clean("1000")
  {
    assert "1000"[..3] == "100" && "100"[..2] == "10" && "10"[..1] == "1";
    assert Value("1") == 1 && Value("10") == 10 && Value("100") == 100;
  }

  lemma FilePlainFine()
    ensures Fine("u::rw-", false) && Fine("g::r--", false) && Fine("o::---", false)
  {
    hide Fine;
    BaseTextFine("u::rw-", false, "u", "rw-");
    BaseTextFine("g::r--", false, "g", "r--");
    BaseTextFine("o::---", false, "o", "---");
  }

  lemma DirPlainFine()
    ensures Fine("u::rwx", false) && Fine("g::r-x", false) && Fine("o::---", false)
  {
    hide Fine;
    BaseTextFine("u::rwx", false, "u", "rwx");
    BaseTextFine("g::r-x", false, "g", "r-x");
    BaseTextFine("o::---", false, "o", "---");
  }

  lemma NamedFine()
    ensures Fine("u:1000:r--", false) && Fine("g:1000:r--", false) && Fine("m::r--", false)
  {
    hide Fine;
    NamedTextFine("u:1000:r--", "u", "r--");
    NamedTextFine("g:1000:r--", "g", "r--");
    BaseTextFine("m::r--", false, "m", "r--");
  }

  lemma DefaultsFine()
    ensures Fine("default:u::rwx", true) && Fine("default:g::r-x", true) && Fine("default:o::---", true)
  {
    hide Fine;
    BaseTextFine("default:u::rwx", true, "u", "rwx");
    BaseTextFine("default:g::r-x", true, "g", "r-x");
    BaseTextFine("default:o::---", true, "o", "---");
  }

  ghost predicate AllFine(acl: seq<string>, defaults: bool) {
    && (forall i :: 0 <= i < |acl| ==> Fine(acl[i], false) || (defaults && Fine(acl[i], true)))
    && (defaults ==> exists i :: 0 <= i < |acl| && Fine(acl[i], true))
  }

  lemma FineResolves(acl: seq<string>, defaults: bool)
    requires AllFine(acl, defaults)
    ensures AclResolve.Resolvable(acl) && (AclResolve.AnyDefault(acl) <==> defaults)
  {
    hide ParseTextEntry;
  }

  /** Every list of a coverage plan resolves; only the directory variant has default entries. */
  lemma CoverageListsResolve(acl: seq<string>)
    requires acl in COVERAGE_ACLS
    ensures AclResolve.Resolvable(acl) && (AclResolve.AnyDefault(acl) ==> acl == ACLFor(DEFAULT_ON_DIR))
  {
    FilePlainFine();
    DirPlainFine();
    NamedFine();
    DefaultsFine();
    hide Fine, AclResolve.Resolvable, AclResolve.AnyDefault;
    if acl == ACLFor(DEFAULT_ON_DIR) {
      assert acl == ["u::rwx", "g::r-x", "o::---", "default:u::rwx", "default:g::r-x", "default:o::---"];
      assert Fine(acl[3], true);
      FineResolves(acl, true);
    } else if acl == ACLFor(1) {
      assert acl == ["u::rw-", "g::r--", "o::---", "u:1000:r--", "g:1000:r--", "m::r--"];
      FineResolves(acl, false);
    } else {
      FineResolves(acl, false);
    }
  }
}
