/** The custom-template registry: templates keyed by their sequence number, the list of
    template ids per creator, and a counter. A template moves draft -> pending ->
    approved or rejected; structural and data validators guard submission and use. */
module CustomTemplates {
  import opened Common

  datatype TemplateField = TemplateField(
    id: Text,
    name: Text,
    fieldType: Text,        // "email", "url", "number", or anything else (unchecked)
    displayLabel: Text,
    required: bool,
    minLength: Option<nat>,
    maxLength: Option<nat>,
    pattern: Option<Text>,
    order: nat,
    visible: bool,
    editable: bool)

  datatype ValidationRule = ValidationRule(
    id: Text,
    name: Text,
    fieldId: Text,
    ruleType: Text,
    errorMessage: Text,
    severity: Text,
    enabled: bool)

  datatype TemplateStatus = Draft | Pending | Approved | Rejected

  /** A stored template; `id` is the counter value n of the id `tpl_n`. */
  datatype CustomTemplate = CustomTemplate(
    id: nat,
    name: Text,
    description: Text,
    version: Text,
    category: Text,
    fields: seq<TemplateField>,
    validationRules: seq<ValidationRule>,
    templateSchema: Bytes,
    sampleData: Option<Bytes>,
    createdBy: Address,
    organizationId: Option<Text>,
    isPublic: bool,
    tags: seq<Text>,
    price: int,
    usageCount: nat,
    status: TemplateStatus,
    createdAt: nat,
    updatedAt: nat,
    requiresEncryption: bool,
    privacyLevel: Text)

  /** The marketplace view of a template. */
  datatype TemplateMetadata = TemplateMetadata(
    id: nat,
    name: Text,
    description: Text,
    category: Text,
    createdBy: Address,
    isPublic: bool,
    price: int,
    usageCount: nat,
    ratingAverage: Option<int>,
    ratingCount: nat,
    status: TemplateStatus,
    createdAt: nat,
    tags: seq<Text>)

  /** The optional arguments of `update_template`: `None` leaves the field alone. */
  datatype TemplateUpdate = TemplateUpdate(
    name: Option<Text>,
    description: Option<Text>,
    category: Option<Text>,
    fields: Option<seq<TemplateField>>,
    validationRules: Option<seq<ValidationRule>>,
    templateSchema: Option<Bytes>,
    sampleData: Option<Bytes>,
    isPublic: Option<bool>,
    tags: Option<seq<Text>>,
    price: Option<int>,
    requiresEncryption: Option<bool>,
    privacyLevel: Option<Text>)

  /** The filters of `list_templates`. */
  datatype ListFilter = ListFilter(category: Option<Text>, isPublic: Option<bool>, tags: Option<seq<Text>>)

  /** The reasons the contract panics. */
  datatype TemplateError =
    | AlreadyInitialized
    | Unauthorized        // caller is not the template's creator
    | NotDraft
    | ValidationFailed
    | NotPending
    | InvalidDecision     // neither "approve" nor "reject"

  /* ---------------------------------------------------------------------------
     Text predicates
     ------------------------------------------------------------------------- */

  /** `p` occurs in `s` as a contiguous substring (Rust's `str::contains`). */
  predicate Contains(s: Text, p: Text) {
    exists i :: 0 <= i <= |s| - |p| && StartsWith(s[i..], p)
  }

  /** `s` begins with `p` (Rust's `str::starts_with`). */
  predicate StartsWith(s: Text, p: Text) {
    |p| <= |s| && s[..|p|] == p
  }

  /** A one-character pattern occurs exactly when that character does. */
  lemma ContainsChar(s: Text, c: char)
    ensures Contains(s, [c]) <==> c in s
  {
    if c in s {
      var i :| 0 <= i < |s| && s[i] == c;
      assert s[i..][..1] == [c];
    }
    if Contains(s, [c]) {
      var i :| 0 <= i <= |s| - 1 && StartsWith(s[i..], [c]);
      assert s[i] == s[i..][..1][0] == c;
    }
  }

  /** `is_valid_email`: the text holds an '@' and a '.', anywhere and in any order. */
  function IsValidEmail(email: Text): (ok: bool)
    ensures ok <==> '@' in email && '.' in email
  {
    ContainsChar(email, '@');
    ContainsChar(email, '.');
    Contains(email, "@") && Contains(email, ".")
  }

  /** `is_valid_url`: the text starts with "http://" or "https://". */
  function IsValidUrl(url: Text): (ok: bool)
    ensures ok <==> |url| >= 7 && url[..4] == "http" &&
                    (url[4..7] == "://" || (|url| >= 8 && url[4..8] == "s://"))
  {
    assert StartsWith(url, "http://") <==> |url| >= 7 && url[..4] == "http" && url[4..7] == "://" by {
      if |url| >= 7 {
        assert url[..7] == url[..4] + url[4..7];
      }
    }
    assert StartsWith(url, "https://") <==> |url| >= 8 && url[..4] == "http" && url[4..8] == "s://" by {
      if |url| >= 8 {
        assert url[..8] == url[..4] + url[4..8];
      }
    }
    StartsWith(url, "http://") || StartsWith(url, "https://")
  }

  predicate IsDigit(c: char) {
    '0' <= c <= '9'
  }

  /** The value of a string of decimal digits. */
  function DigitsValue(s: Text): nat
    requires forall i :: 0 <= i < |s| ==> IsDigit(s[i])
  {
    if s == [] then 0
    else
      assert IsDigit(s[|s| - 1]);
      DigitsValue(s[..|s| - 1]) * 10 + (s[|s| - 1] as int - '0' as int)
  }

  /** Rust's `str::parse::<i64>` succeeds: an optional sign, at least one digit, nothing
      else, and a value in the 64-bit signed range. */
  predicate ParsesAsI64(v: Text) {
    var negative := |v| > 0 && v[0] == '-';
    var digits := if |v| > 0 && (v[0] == '-' || v[0] == '+') then v[1..] else v;
    && |digits| > 0
    && (forall i :: 0 <= i < |digits| ==> IsDigit(digits[i]))
    && DigitsValue(digits) <= (if negative then 0x8000_0000_0000_0000 else 0x7FFF_FFFF_FFFF_FFFF)
  }

  /* ---------------------------------------------------------------------------
     Validators
     ------------------------------------------------------------------------- */

  /** No two fields share an id. */
  predicate UniqueFieldIds(fields: seq<TemplateField>) {
    forall i, j :: 0 <= i < j < |fields| ==> fields[i].id != fields[j].id
  }

  /** Some field carries this id. */
  predicate HasField(fields: seq<TemplateField>, id: Text) {
    exists f :: f in fields && f.id == id
  }

  /** What `validate_template_structure` accepts: a name and a description, unique
      field ids, and every validation rule naming one of the fields. */
  predicate StructureValid(t: CustomTemplate) {
    && |t.name| > 0 && |t.description| > 0
    && UniqueFieldIds(t.fields)
    && forall r :: r in t.validationRules ==> HasField(t.fields, r.fieldId)
  }

  /** `validate_template_structure`, with its growing list of seen field ids. */
  method ValidateTemplateStructure(t: CustomTemplate) returns (ok: bool)
    ensures ok <==> StructureValid(t)
  {
    if |t.name| == 0 || |t.description| == 0 {
      return false;
    }
    var fieldIds: seq<Text> := [];
    for i := 0 to |t.fields|
      invariant |fieldIds| == i
      invariant forall k :: 0 <= k < i ==> fieldIds[k] == t.fields[k].id
      invariant UniqueFieldIds(t.fields[..i])
    {
      if t.fields[i].id in fieldIds {
        var k :| 0 <= k < i && fieldIds[k] == t.fields[i].id;
        assert t.fields[k].id == t.fields[i].id;
        return false;
      }
      fieldIds := fieldIds + [t.fields[i].id];
      assert forall k :: 0 <= k < i ==> t.fields[..i + 1][k] == t.fields[..i][k];
    }
    assert t.fields[..|t.fields|] == t.fields;
    for j := 0 to |t.validationRules|
      invariant forall k :: 0 <= k < j ==> HasField(t.fields, t.validationRules[k].fieldId)
    {
      var rule := t.validationRules[j];
      var fieldExists := false;
      for i := 0 to |t.fields|
        invariant fieldExists <==> exists k :: 0 <= k < i && t.fields[k].id == rule.fieldId
      {
        if t.fields[i].id == rule.fieldId {
          fieldExists := true;
          break;
        }
      }
      if !fieldExists {
        assert !HasField(t.fields, rule.fieldId);
        return false;
      }
    }
    assert forall r :: r in t.validationRules ==> HasField(t.fields, r.fieldId) by {
      forall r | r in t.validationRules ensures HasField(t.fields, r.fieldId) {
        var k :| 0 <= k < |t.validationRules| && t.validationRules[k] == r;
      }
    }
    return true;
  }

  /** The type check of a present value: email and url by their predicates, number by
      parsing as a 64-bit integer, any other type unchecked. */
  predicate TypeValid(fieldType: Text, value: Text) {
    if fieldType == "email" then IsValidEmail(value)
    else if fieldType == "url" then IsValidUrl(value)
    else if fieldType == "number" then ParsesAsI64(value)
    else true
  }

  /** The constraints on a value present for a field: its type, its length bounds, and
      its pattern taken as a plain substring. */
  predicate ValueValid(f: TemplateField, value: Text) {
    && TypeValid(f.fieldType, value)
    && (f.minLength.Some? ==> |value| >= f.minLength.value)
    && (f.maxLength.Some? ==> |value| <= f.maxLength.value)
    && (f.pattern.Some? ==> Contains(value, f.pattern.value))
  }

  /** What `validate_data_against_template` accepts: every required field present and
      non-empty, and every field present in the data valid. Keys that name no field are
      not looked at. */
  predicate DataValid(fields: seq<TemplateField>, data: map<Text, Text>) {
    && (forall f :: f in fields && f.required ==> f.id in data && |data[f.id]| > 0)
    && (forall f :: f in fields && f.id in data ==> ValueValid(f, data[f.id]))
  }

  /** `validate_data_against_template`: a pass over the required fields, then a pass over
      the fields present in the data. */
  method ValidateDataAgainstTemplate(t: CustomTemplate, data: map<Text, Text>) returns (ok: bool)
    ensures ok <==> DataValid(t.fields, data)
  {
    for i := 0 to |t.fields|
      invariant forall k :: 0 <= k < i && t.fields[k].required ==>
                  t.fields[k].id in data && |data[t.fields[k].id]| > 0
    {
      var field := t.fields[i];
      if field.required {
        if field.id !in data || |data[field.id]| == 0 {
          return false;
        }
      }
    }
    for i := 0 to |t.fields|
      invariant forall k :: 0 <= k < i && t.fields[k].id in data ==> ValueValid(t.fields[k], data[t.fields[k].id])
    {
      var field := t.fields[i];
      if field.id in data {
        var value := data[field.id];
        if !TypeValid(field.fieldType, value) {
          return false;
        }
        if field.minLength.Some? && |value| < field.minLength.value {
          return false;
        }
        if field.maxLength.Some? && |value| > field.maxLength.value {
          return false;
        }
        if field.pattern.Some? && !Contains(value, field.pattern.value) {
          return false;
        }
      }
    }
    return true;
  }

  /** Data keys that name no field never change the verdict. */
  lemma ExtraKeysIgnored(fields: seq<TemplateField>, data: map<Text, Text>, key: Text, value: Text)
    requires !HasField(fields, key)
    ensures DataValid(fields, data[key := value]) <==> DataValid(fields, data)
  {
    assert forall f :: f in fields ==> f.id != key;
  }

  /* ---------------------------------------------------------------------------
     Updates and listing
     ------------------------------------------------------------------------- */

  /** The field writes of `update_template`: each field given as `Some` takes that value
      and every other field, identity and history field is kept. */
  function ApplyUpdate(t: CustomTemplate, u: TemplateUpdate): (r: CustomTemplate)
    ensures r.name == u.name.GetOr(t.name) && r.description == u.description.GetOr(t.description)
    ensures r.category == u.category.GetOr(t.category) && r.fields == u.fields.GetOr(t.fields)
    ensures r.validationRules == u.validationRules.GetOr(t.validationRules)
    ensures r.templateSchema == u.templateSchema.GetOr(t.templateSchema)
    ensures r.sampleData == (if u.sampleData.Some? then u.sampleData else t.sampleData)
    ensures r.isPublic == u.isPublic.GetOr(t.isPublic) && r.tags == u.tags.GetOr(t.tags)
    ensures r.price == u.price.GetOr(t.price)
    ensures r.requiresEncryption == u.requiresEncryption.GetOr(t.requiresEncryption)
    ensures r.privacyLevel == u.privacyLevel.GetOr(t.privacyLevel)
    ensures r.id == t.id && r.version == t.version && r.createdBy == t.createdBy
    ensures r.organizationId == t.organizationId && r.usageCount == t.usageCount
    ensures r.status == t.status && r.createdAt == t.createdAt && r.updatedAt == t.updatedAt
  {
    t.(name := u.name.GetOr(t.name),
       description := u.description.GetOr(t.description),
       category := u.category.GetOr(t.category),
       fields := u.fields.GetOr(t.fields),
       validationRules := u.validationRules.GetOr(t.validationRules),
       templateSchema := u.templateSchema.GetOr(t.templateSchema),
       sampleData := if u.sampleData.Some? then u.sampleData else t.sampleData,
       isPublic := u.isPublic.GetOr(t.isPublic),
       tags := u.tags.GetOr(t.tags),
       price := u.price.GetOr(t.price),
       requiresEncryption := u.requiresEncryption.GetOr(t.requiresEncryption),
       privacyLevel := u.privacyLevel.GetOr(t.privacyLevel))
  }

  /** An update with every argument `None` changes nothing. */
  lemma EmptyUpdateIsIdentity(t: CustomTemplate)
    ensures ApplyUpdate(t, TemplateUpdate(None, None, None, None, None, None, None, None, None, None, None, None)) == t
  {
  }

  /** The marketplace view of a template, with no ratings yet. */
  function Metadata(t: CustomTemplate): TemplateMetadata {
    TemplateMetadata(t.id, t.name, t.description, t.category, t.createdBy, t.isPublic,
                     t.price, t.usageCount, None, 0, t.status, t.createdAt, t.tags)
  }

  /** Some requested tag is one of the template's tags. */
  predicate SharesTag(requested: seq<Text>, tags: seq<Text>) {
    exists tag :: tag in requested && tag in tags
  }

  /** The filters of `list_templates`; a listing that is not explicitly non-public only
      shows approved templates. */
  predicate Listed(t: CustomTemplate, filter: ListFilter) {
    && (filter.category.Some? ==> t.category == filter.category.value)
    && (filter.isPublic.Some? ==> t.isPublic == filter.isPublic.value)
    && (filter.tags.Some? ==> SharesTag(filter.tags.value, t.tags))
    && (filter.isPublic.GetOr(true) ==> t.status == Approved)
  }

  /** The page size: 50 by default, never above 100. */
  function PageLimit(limit: Option<nat>): (n: nat)
    ensures n <= 100
    ensures limit.None? ==> n == 50
    ensures limit.Some? && limit.value <= 100 ==> n == limit.value
  {
    Min(limit.GetOr(50), 100)
  }

  /** The metadata of every template listed, in the order the keys are visited. */
  function Selection(templates: map<nat, CustomTemplate>, keys: seq<nat>, filter: ListFilter): seq<TemplateMetadata>
    requires forall k :: k in keys ==> k in templates
  {
    if keys == [] then []
    else
      var t := templates[keys[|keys| - 1]];
      Selection(templates, keys[..|keys| - 1], filter) + (if Listed(t, filter) then [Metadata(t)] else [])
  }

  /** Visiting more keys only extends the selection. */
  lemma {:induction false} SelectionPrefix(templates: map<nat, CustomTemplate>, keys: seq<nat>, i: nat, filter: ListFilter)
    requires forall k :: k in keys ==> k in templates
    requires i <= |keys|
    ensures Selection(templates, keys[..i], filter) <= Selection(templates, keys, filter)
  {
    if i < |keys| {
      var init := keys[..|keys| - 1];
      assert keys[..i] == init[..i];
      SelectionPrefix(templates, init, i, filter);
    } else {
      assert keys[..i] == keys;
    }
  }

  /** Every entry of a selection is the view of a visited template that passes the
      filters, and every visited template that passes them has its view there. */
  lemma {:induction false} SelectionSound(templates: map<nat, CustomTemplate>, keys: seq<nat>, filter: ListFilter)
    requires forall k :: k in keys ==> k in templates
    ensures forall m :: m in Selection(templates, keys, filter) ==>
              exists k :: k in keys && Listed(templates[k], filter) && m == Metadata(templates[k])
    ensures forall k :: k in keys && Listed(templates[k], filter) ==>
              Metadata(templates[k]) in Selection(templates, keys, filter)
  {
    if keys != [] {
      SelectionSound(templates, keys[..|keys| - 1], filter);
      assert forall k :: k in keys ==> k in keys[..|keys| - 1] || k == keys[|keys| - 1];
    }
  }

  /** A keys sequence visits every stored template exactly once: the order in which the
      host map iterates. */
  ghost predicate Enumerates(keys: seq<nat>, templates: map<nat, CustomTemplate>) {
    && (forall k :: k in keys <==> k in templates)
    && (forall i, j :: 0 <= i < j < |keys| ==> keys[i] != keys[j])
  }

  /** `has_tag`: the inner loop of the tag filter. */
  method AnyTagMatches(requested: seq<Text>, tags: seq<Text>) returns (found: bool)
    ensures found <==> SharesTag(requested, tags)
  {
    found := false;
    for i := 0 to |requested|
      invariant !found
      invariant forall k :: 0 <= k < i ==> requested[k] !in tags
    {
      if requested[i] in tags {
        return true;
      }
    }
  }

  /* ---------------------------------------------------------------------------
     The contract
     ------------------------------------------------------------------------- */

  class TemplateRegistry {
    /** The template counter; absent until `initialize` or the first creation. */
    var count: Option<nat>
    var templates: map<nat, CustomTemplate>
    var userTemplates: map<Address, seq<nat>>

    /** Every stored template sits under its own id, below the counter. */
    ghost predicate Valid()
      reads this
    {
      forall id :: id in templates ==> templates[id].id == id && id < count.GetOr(0)
    }

    constructor ()
      ensures Valid()
      ensures count == None && templates == map[] && userTemplates == map[]
    {
      count := None;
      templates := map[];
      userTemplates := map[];
    }

    /** `initialize`: sets the counter to 0, only once. */
    method Initialize() returns (r: Outcome<TemplateError>)
      requires Valid()
      modifies this
      ensures Valid()
      ensures old(count).Some? ==> r == Fail(AlreadyInitialized) && unchanged(this)
      ensures old(count).None? ==> r == Pass && count == Some(0)
      ensures templates == old(templates) && userTemplates == old(userTemplates)
    {
      if count.Some? {
        return Fail(AlreadyInitialized);
      }
      count := Some(0);
      r := Pass;
    }

    /** `create_template`: the counter value n names the new draft (`tpl_n`), which is
        stored, appended to the creator's list, and the counter moves to n + 1. */
    method CreateTemplate(creator: Address, now: nat, name: Text, description: Text, category: Text,
                          fields: seq<TemplateField>, validationRules: seq<ValidationRule>,
                          templateSchema: Bytes, sampleData: Option<Bytes>, isPublic: bool,
                          tags: seq<Text>, price: int, requiresEncryption: bool, privacyLevel: Text)
      returns (id: nat)
      requires Valid()
      modifies this
      ensures Valid()
      ensures id == old(count).GetOr(0) && id !in old(templates)
      ensures count == Some(id + 1)
      ensures templates == old(templates)[id := CustomTemplate(
        id, name, description, "1.0.0", category, fields, validationRules, templateSchema, sampleData,
        creator, None, isPublic, tags, price, 0, Draft, now, now, requiresEncryption, privacyLevel)]
      ensures userTemplates == old(userTemplates)[creator := old(UserTemplates(creator)) + [id]]
    {
      id := count.GetOr(0);
      var template := CustomTemplate(
        id, name, description, "1.0.0", category, fields, validationRules, templateSchema, sampleData,
        creator, None, isPublic, tags, price, 0, Draft, now, now, requiresEncryption, privacyLevel);
      templates := templates[id := template];
      var list := UserTemplates(creator);
      userTemplates := userTemplates[creator := list + [id]];
      count := Some(id + 1);
    }

    /** `get_template`. */
    function GetTemplate(id: nat): (r: Option<CustomTemplate>)
      reads this
      ensures r.Some? <==> id in templates
      ensures r.Some? ==> r.value == templates[id]
    {
      if id in templates then Some(templates[id]) else None
    }

    /** `get_user_templates`: the creator's ids, or none. */
    function UserTemplates(user: Address): (ids: seq<nat>)
      reads this
      ensures user !in userTemplates ==> ids == []
      ensures user in userTemplates ==> ids == userTemplates[user]
    {
      if user in userTemplates then userTemplates[user] else []
    }

    /** `list_templates`: visits the templates in the host map's order, keeps those that
        pass the filters, and stops once the page is full. */
    method ListTemplates(keys: seq<nat>, filter: ListFilter, limit: Option<nat>) returns (result: seq<TemplateMetadata>)
      requires Enumerates(keys, templates)
      ensures var all := Selection(templates, keys, filter);
        result == all[..Min(|all|, PageLimit(limit))]
    {
      var pageLimit := PageLimit(limit);
      result := [];
      var listed := 0;
      var i := 0;
      while i < |keys| && listed < pageLimit
        invariant 0 <= i <= |keys|
        invariant listed == |result| <= pageLimit
        invariant result == Selection(templates, keys[..i], filter)
      {
        assert keys[..i + 1][..i] == keys[..i];
        var template := templates[keys[i]];
        var keep := true;
        if filter.category.Some? && template.category != filter.category.value {
          keep := false;
        }
        if filter.isPublic.Some? && template.isPublic != filter.isPublic.value {
          keep := false;
        }
        if filter.tags.Some? {
          var hasTag := AnyTagMatches(filter.tags.value, template.tags);
          if !hasTag {
            keep := false;
          }
        }
        if filter.isPublic.GetOr(true) && template.status != Approved {
          keep := false;
        }
        assert keep == Listed(template, filter);
        assert Selection(templates, keys[..i + 1], filter)
          == Selection(templates, keys[..i], filter) + (if keep then [Metadata(template)] else []);
        if keep {
          result := result + [Metadata(template)];
          listed := listed + 1;
        }
        i := i + 1;
      }
      SelectionPrefix(templates, keys, i, filter);
      if i == |keys| {
        assert keys[..i] == keys;
      }
    }

    /** `update_template`: unknown ids give false; only the creator may update, and only
        a draft; the given fields change and the template stays a draft. */
    method UpdateTemplate(caller: Address, id: nat, update: TemplateUpdate, now: nat)
      returns (r: Result<bool, TemplateError>)
      requires Valid()
      modifies this
      ensures Valid()
      ensures id !in old(templates) ==> r == Ok(false) && unchanged(this)
      ensures id in old(templates) && old(templates)[id].createdBy != caller ==>
        r == Err(Unauthorized) && unchanged(this)
      ensures id in old(templates) && old(templates)[id].createdBy == caller && old(templates)[id].status != Draft ==>
        r == Err(NotDraft) && unchanged(this)
      ensures r == Ok(true) <==>
        id in old(templates) && old(templates)[id].createdBy == caller && old(templates)[id].status == Draft
      ensures r == Ok(true) ==>
        templates == old(templates)[id := ApplyUpdate(old(templates)[id], update).(updatedAt := now, status := Draft)]
      ensures count == old(count) && userTemplates == old(userTemplates)
    {
      if id !in templates {
        return Ok(false);
      }
      var template := templates[id];
      if template.createdBy != caller {
        return Err(Unauthorized);
      }
      if template.status != Draft {
        return Err(NotDraft);
      }
      template := ApplyUpdate(template, update);
      template := template.(updatedAt := now, status := Draft);
      templates := templates[id := template];
      r := Ok(true);
    }

    /** `submit_for_approval`: the creator moves a structurally valid draft to pending. */
    method SubmitForApproval(caller: Address, id: nat, now: nat) returns (r: Result<bool, TemplateError>)
      requires Valid()
      modifies this
      ensures Valid()
      ensures id !in old(templates) ==> r == Ok(false) && unchanged(this)
      ensures r.Err? ==> unchanged(this)
      ensures id in old(templates) ==>
        var t := old(templates)[id];
        if t.createdBy != caller then r == Err(Unauthorized)
        else if t.status != Draft then r == Err(NotDraft)
        else if !StructureValid(t) then r == Err(ValidationFailed)
        else r == Ok(true) && templates == old(templates)[id := t.(status := Pending, updatedAt := now)]
      ensures count == old(count) && userTemplates == old(userTemplates)
    {
      if id !in templates {
        return Ok(false);
      }
      var template := templates[id];
      if template.createdBy != caller {
        return Err(Unauthorized);
      }
      if template.status != Draft {
        return Err(NotDraft);
      }
      var valid := ValidateTemplateStructure(template);
      if !valid {
        return Err(ValidationFailed);
      }
      template := template.(status := Pending, updatedAt := now);
      templates := templates[id := template];
      r := Ok(true);
    }

    /** `moderate_template`: a pending template becomes approved on "approve" and
        rejected on "reject"; any other decision fails. No moderator check is made. */
    method ModerateTemplate(id: nat, decision: Text, now: nat) returns (r: Result<bool, TemplateError>)
      requires Valid()
      modifies this
      ensures Valid()
      ensures id !in old(templates) ==> r == Ok(false) && unchanged(this)
      ensures r.Err? ==> unchanged(this)
      ensures id in old(templates) ==>
        var t := old(templates)[id];
        if t.status != Pending then r == Err(NotPending)
        else if decision == "approve" then
          r == Ok(true) && templates == old(templates)[id := t.(status := Approved, updatedAt := now)]
        else if decision == "reject" then
          r == Ok(true) && templates == old(templates)[id := t.(status := Rejected, updatedAt := now)]
        else r == Err(InvalidDecision)
      ensures count == old(count) && userTemplates == old(userTemplates)
    {
      if id !in templates {
        return Ok(false);
      }
      var template := templates[id];
      if template.status != Pending {
        return Err(NotPending);
      }
      if decision == "approve" {
        template := template.(status := Approved);
      } else if decision == "reject" {
        template := template.(status := Rejected);
      } else {
        return Err(InvalidDecision);
      }
      template := template.(updatedAt := now);
      templates := templates[id := template];
      r := Ok(true);
    }

    /** `validate_template_data`: false for an unknown template. */
    method ValidateTemplateData(id: nat, data: map<Text, Text>) returns (ok: bool)
      ensures ok <==> id in templates && DataValid(templates[id].fields, data)
    {
      if id !in templates {
        return false;
      }
      ok := ValidateDataAgainstTemplate(templates[id], data);
    }
  }

  /** Every listed entry passes the filters (so a listing that is not explicitly
      non-public holds only approved templates), the page never exceeds its limit, and
      a short page holds every template that passes them. */
  lemma ListingProperties(templates: map<nat, CustomTemplate>, keys: seq<nat>, filter: ListFilter,
                          limit: Option<nat>, result: seq<TemplateMetadata>)
    requires Enumerates(keys, templates)
    requires var all := Selection(templates, keys, filter); result == all[..Min(|all|, PageLimit(limit))]
    ensures |result| <= PageLimit(limit) <= 100
    ensures forall m :: m in result ==> exists k :: k in templates && Listed(templates[k], filter) && m == Metadata(templates[k])
    ensures forall m :: m in result && filter.isPublic.GetOr(true) ==> m.status == Approved
    ensures |result| < PageLimit(limit) ==>
      forall k :: k in templates && Listed(templates[k], filter) ==> Metadata(templates[k]) in result
  {
    var all := Selection(templates, keys, filter);
    SelectionSound(templates, keys, filter);
    assert forall m :: m in result ==> m in all;
    if |result| < PageLimit(limit) {
      assert result == all;
    }
  }
}
