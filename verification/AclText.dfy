/**
  internal/aclxattr/aclxattr.go: the text forms of ACL entries (sections 23.4.13 and 23.4.27 of
  IEEE Std 1003.1e draft 17). Strings are sequences of characters; where the source counts
  bytes, in permissions, only ASCII strings pass either way.
 */
module AclText {
  import opened Wrappers
  import opened Strings
  import opened Acl

  datatype TextError =
    | EmptyEntry | FieldCount | BadPermission | BadQualifier | QualifierNotAllowed | UnknownRole
    | InvalidACL(error: AclError)

  /** A parsed text entry. */
  datatype TextEntry = TextEntry(isDefault: bool, entry: Entry)

  // ---------------------------------------------------------------- fields

  /** parsePerm */
  function ParsePerm(s: string): Option<U16> {
    if |s| != 3 || (s[0] != 'r' && s[0] != '-') || (s[1] != 'w' && s[1] != '-') || (s[2] != 'x' && s[2] != '-') then None
    else Some((if s[0] == 'r' then 4 else 0) + (if s[1] == 'w' then 2 else 0) + if s[2] == 'x' then 1 else 0)
  }

  /** formatPerm */
  function FormatPerm(perm: U16): (s: string)
    ensures |s| == 3
  {
    [if perm / 4 % 2 == 1 then 'r' else '-', if perm / 2 % 2 == 1 then 'w' else '-', if perm % 2 == 1 then 'x' else '-']
  }

  lemma PermRoundTrip(perm: U16)
    ensures perm <= 7 ==> ParsePerm(FormatPerm(perm)) == Some(perm)
    ensures forall i :: 0 <= i < 3 ==> FormatPerm(perm)[i] != ':' && !IsSpace(FormatPerm(perm)[i])
  {
    assert perm <= 7 ==> perm == 4 * (perm / 4 % 2) + 2 * (perm / 2 % 2) + perm % 2;
  }

  /** parseID: strconv.ParseUint in base 10, at most 32 bits. */
  function ParseID(s: string): Option<U32> {
    if s == "" || !AllDigits(s) || Value(s) > UNDEFINED_ID then None else Some(Value(s))
  }

  lemma IDRoundTrip(id: U32)
    ensures ParseID(Decimal(id)) == Some(id)
    ensures forall i :: 0 <= i < |Decimal(id)| ==> Decimal(id)[i] != ':' && !IsSpace(Decimal(id)[i])
  {
    ValueDecimal(id);
    var s := Decimal(id);
    forall i | 0 <= i < |s| ensures s[i] != ':' && !IsSpace(s[i]) {
      assert IsDigit(s[i]);
    }
  }

  // ---------------------------------------------------------------- one entry

  function Unprefixed(s: string, prefix: string): Option<string> {
    if prefix <= s then Some(Trim(s[|prefix|..])) else None
  }

  /** The role's tag without and with a qualifier. */
  function RoleTags(role: string): Option<(U16, Option<U16>)> {
    if role == "u" || role == "user" then Some((USER_OBJ, Some(USER)))
    else if role == "g" || role == "group" then Some((GROUP_OBJ, Some(GROUP)))
    else if role == "m" || role == "mask" then Some((MASK, None))
    else if role == "o" || role == "other" then Some((OTHER, None))
    else None
  }

  /** The entry three clean fields stand for. */
  function ParseClean(isDefault: bool, role: string, qualifier: string, perm: Option<U16>): Result<TextEntry, TextError> {
    if perm.None? then Err(BadPermission)
    else
      var tags := RoleTags(role);
      if tags.None? then Err(UnknownRole)
      else if qualifier == "" then Ok(TextEntry(isDefault, Entry(tags.value.0, perm.value, UNDEFINED_ID)))
      else if tags.value.1.None? then Err(QualifierNotAllowed)
      else
        var id := ParseID(qualifier);
        if id.None? then Err(BadQualifier) else Ok(TextEntry(isDefault, Entry(tags.value.1.value, perm.value, id.value)))
  }

  function ParseFields(isDefault: bool, parts: seq<string>): Result<TextEntry, TextError> {
    if |parts| != 3 then Err(FieldCount)
    else ParseClean(isDefault, Lower(Trim(parts[0])), Trim(parts[1]), ParsePerm(Trim(parts[2])))
  }

  /** ParseTextEntry: both prefixes may be there, the short one first. */
  function ParseTextEntry(raw: string): Result<TextEntry, TextError> {
    var trimmed := Trim(raw);
    if trimmed == "" then Err(EmptyEntry)
    else
      var short := Unprefixed(trimmed, "d:");
      var rest := if short.Some? then short.value else trimmed;
      var long := Unprefixed(rest, DEFAULT_PREFIX);
      var body := if long.Some? then long.value else rest;
      ParseFields(short.Some? || long.Some?, Split(body, ':'))
  }

  function Role(tag: U16): string {
    if tag == USER_OBJ || tag == USER then "user"
    else if tag == GROUP_OBJ || tag == GROUP then "group"
    else if tag == MASK then "mask"
    else if tag == OTHER then "other"
    else "unknown"
  }

  function Qualifier(e: Entry): string {
    if Named(e) then Decimal(e.id) else if Unqualified(e.tag) then "" else Decimal(e.tag)
  }

  function Fields(a: string, b: string, c: string): string {
    a + [':'] + (b + [':'] + c)
  }

  /** formatTextEntry without the default prefix; unknown tags get an empty field more. */
  function FormatEntry(e: Entry): string {
    Fields(Role(e.tag), Qualifier(e), if Named(e) || Unqualified(e.tag) then FormatPerm(e.perm) else ":" + FormatPerm(e.perm))
  }

  function FormatTextEntry(isDefault: bool, e: Entry): string {
    if isDefault then DEFAULT_PREFIX + FormatEntry(e) else FormatEntry(e)
  }

  /** Every named or base entry, whatever its id. */
  predicate Printable(e: Entry) {
    e.perm <= 7 && (Named(e) || (Unqualified(e.tag) && e.id == UNDEFINED_ID))
  }

  predicate KnownTag(tag: U16) {
    Unqualified(tag) || tag == USER || tag == GROUP
  }

  lemma RoleIsWord(tag: U16)
    requires KnownTag(tag)
    ensures Role(tag) != "" && Role(tag)[0] != 'd'
    ensures forall i :: 0 <= i < |Role(tag)| ==> 'a' <= Role(tag)[i] <= 'z'
  {
  }

  /** A lower-case word survives the clean-up of a field. */
  lemma WordIsClean(s: string)
    requires s != "" && forall i :: 0 <= i < |s| ==> 'a' <= s[i] <= 'z'
    ensures Lower(s) == s && Trim(s) == s && ':' !in s
  {
    LowerFixpoint(s);
    assert !IsSpace(s[0]) && !IsSpace(s[|s| - 1]);
    hide Lower, Trim;
    TrimFixpoint(s);
  }

  lemma LowerFixpoint(s: string)
    requires forall i :: 0 <= i < |s| ==> 'a' <= s[i] <= 'z'
    ensures Lower(s) == s
  {
    forall i | 0 <= i < |s| ensures Lower(s)[i] == s[i] {
    }
  }

  lemma CleanTrim(s: string)
    requires forall i :: 0 <= i < |s| ==> !IsSpace(s[i])
    ensures Trim(s) == s
  {
    TrimFixpoint(s);
  }

  lemma SplitFields(a: string, b: string, c: string)
    requires ':' !in a && ':' !in b && ':' !in c
    ensures Split(Fields(a, b, c), ':') == [a, b, c]
  {
    SplitWhole(a, ':');
    SplitWhole(b, ':');
    SplitWhole(c, ':');
    SplitConcat(b, c, ':');
    SplitConcat(a, b + [':'] + c, ':');
    assert [a] + ([b] + [c]) == [a, b, c];
  }

  /** The three fields of a printed entry come through the parser's clean-up unchanged. */
  lemma RoleIsClean(tag: U16)
    requires KnownTag(tag)
    ensures Lower(Trim(Role(tag))) == Role(tag) && ':' !in Role(tag)
  {
    RoleIsWord(tag);
    hide Role, Lower, Trim;
    WordIsClean(Role(tag));
  }

  lemma QualifierIsClean(e: Entry)
    requires Printable(e)
    ensures Trim(Qualifier(e)) == Qualifier(e) && ':' !in Qualifier(e)
    ensures Named(e) ==> Qualifier(e) != "" && ParseID(Qualifier(e)) == Some(e.id)
    ensures !Named(e) ==> Qualifier(e) == ""
  {
    IDRoundTrip(e.id);
    hide Trim, Decimal, ParseID;
    CleanTrim(Qualifier(e));
  }

  lemma PermIsClean(perm: U16)
    ensures Trim(FormatPerm(perm)) == FormatPerm(perm) && ':' !in FormatPerm(perm)
  {
    PermRoundTrip(perm);
    hide Trim, FormatPerm;
    CleanTrim(FormatPerm(perm));
  }

  lemma FormatFields(isDefault: bool, e: Entry)
    requires Printable(e)
    ensures ParseFields(isDefault, Split(FormatEntry(e), ':')) == Ok(TextEntry(isDefault, e))
  {
    hide ParseFields, Split, FormatEntry, Role, Qualifier, FormatPerm;
    SplitEntry(e);
    ParseTriple(isDefault, e);
  }

  lemma SplitEntry(e: Entry)
    requires Printable(e)
    ensures Split(FormatEntry(e), ':') == [Role(e.tag), Qualifier(e), FormatPerm(e.perm)]
  {
    RoleIsClean(e.tag);
    QualifierIsClean(e);
    PermIsClean(e.perm);
    hide Role, Qualifier, FormatPerm, Decimal, Lower, Trim, Fields, Split, ParseID, FormatEntry;
    assert FormatEntry(e) == Fields(Role(e.tag), Qualifier(e), FormatPerm(e.perm));
    SplitFields(Role(e.tag), Qualifier(e), FormatPerm(e.perm));
  }

  lemma ParseTriple(isDefault: bool, e: Entry)
    requires Printable(e)
    ensures ParseFields(isDefault, [Role(e.tag), Qualifier(e), FormatPerm(e.perm)]) == Ok(TextEntry(isDefault, e))
  {
    hide *;
    CleanedFields(e);
    ParseCleanEntry(isDefault, e);
    ThreeFields(isDefault, Role(e.tag), Qualifier(e), FormatPerm(e.perm));
  }

  lemma CleanedFields(e: Entry)
    requires Printable(e)
    ensures Lower(Trim(Role(e.tag))) == Role(e.tag) && Trim(Qualifier(e)) == Qualifier(e)
    ensures ParsePerm(Trim(FormatPerm(e.perm))) == Some(e.perm)
  {
    RoleIsClean(e.tag);
    QualifierIsClean(e);
    PermIsClean(e.perm);
    PermRoundTrip(e.perm);
  }

  lemma ThreeFields(isDefault: bool, a: string, b: string, c: string)
    ensures ParseFields(isDefault, [a, b, c]) == ParseClean(isDefault, Lower(Trim(a)), Trim(b), ParsePerm(Trim(c)))
  {
    hide ParseClean, Lower, Trim, ParsePerm;
  }

  lemma ParseCleanEntry(isDefault: bool, e: Entry)
    requires Printable(e)
    ensures ParseClean(isDefault, Role(e.tag), Qualifier(e), Some(e.perm)) == Ok(TextEntry(isDefault, e))
  {
    assert RoleTags(Role(e.tag)).Some?;
    assert RoleTags(Role(e.tag)).value.0 == (if e.tag == USER then USER_OBJ else if e.tag == GROUP then GROUP_OBJ else e.tag);
    assert e.tag == USER || e.tag == GROUP ==> RoleTags(Role(e.tag)).value.1 == Some(e.tag);
    QualifierIsClean(e);
    hide Role, Qualifier, ParseID, Trim, RoleTags;
  }

  lemma FieldsEnds(a: string, b: string, c: string)
    requires a != "" && c != ""
    ensures var s := Fields(a, b, c); s != "" && s[0] == a[0] && s[|s| - 1] == c[|c| - 1]
  {
  }

  /** Printed entries have no white space at their ends and no prefix of their own. */
  lemma FormatEnds(e: Entry)
    requires Printable(e)
    ensures FormatEntry(e) != "" && FormatEntry(e)[0] != 'd' && Trimmed(FormatEntry(e))
  {
    RoleIsWord(e.tag);
    PermRoundTrip(e.perm);
    hide Role, Qualifier, FormatPerm, Fields;
    FieldsEnds(Role(e.tag), Qualifier(e), FormatPerm(e.perm));
    assert !IsSpace(FormatPerm(e.perm)[2]);
  }

  /** Parsing a text without the short prefix. */
  lemma ParsePlain(s: string)
    requires s != "" && s[0] != 'd' && Trimmed(s)
    ensures ParseTextEntry(s) == ParseFields(false, Split(s, ':'))
  {
    TrimFixpoint(s);
    hide Trim, Split, ParseFields;
  }

  const DEFAULT_PREFIX := "default:"

  lemma ParseDefault(s: string)
    requires s != "" && Trimmed(s)
    ensures ParseTextEntry(DEFAULT_PREFIX + s) == ParseFields(true, Split(s, ':'))
  {
    PrefixedText(s);
    var t := DEFAULT_PREFIX + s;
    hide Trim, Split, ParseFields, IsSpace;
    TrimFixpoint(t);
    TrimFixpoint(s);
    assert Unprefixed(t, "d:").None?;
  }

  lemma PrefixedText(s: string)
    requires s != "" && Trimmed(s)
    ensures var t := DEFAULT_PREFIX + s;
            t != "" && Trimmed(t) && !("d:" <= t) && DEFAULT_PREFIX <= t && t[|DEFAULT_PREFIX|..] == s
  {
    var t := DEFAULT_PREFIX + s;
    assert t[0] == 'd' && t[1] == 'e' && t[|t| - 1] == s[|s| - 1];
  }

  /** Printing and parsing an entry gives it back, default or not, with any 32-bit id. */
  lemma EntryRoundTrip(isDefault: bool, e: Entry)
    requires Printable(e)
    ensures ParseTextEntry(FormatTextEntry(isDefault, e)) == Ok(TextEntry(isDefault, e))
  {
    FormatEnds(e);
    FormatFields(isDefault, e);
    hide FormatEntry, ParseFields, Split, ParseTextEntry;
    if isDefault {
      ParseDefault(FormatEntry(e));
    } else {
      ParsePlain(FormatEntry(e));
    }
  }
}
