/**
 * The logic of `DocumentController`: the permission map and document
 * selection behind `index`, the active-document selection behind `stats`,
 * and the field rules that `store` validates a new document against.
 * The document table is the sequence of its rows in the order the query
 * returns them; the authenticated user is a parameter.
 */
module DocumentController {
  import opened Model

  // ---------------------------------------------------------------------
  // Permission map used by `index`

  /** The capability list `index` sends for a permission level. */
  function Capabilities(level: int): (caps: seq<Capability>)
    ensures Distinct(caps)
    ensures CanApprove !in caps
    ensures CanSee in caps <==> 0 <= level <= 2
    ensures CanCreate in caps <==> level == 1 || level == 2
    ensures CanEdit in caps <==> level == 2
    ensures CanDelete in caps <==> level == 2
    ensures caps == [] <==> level !in {0, 1, 2}
  {
    match level
    case 2 => [CanSee, CanCreate, CanEdit, CanDelete]
    case 1 => [CanSee, CanCreate]
    case 0 => [CanSee]
    case _ => []
  }

  /** The exact lists, in the order they are sent. */
  lemma CapabilitiesTable(level: int)
    ensures level == 2 ==> Capabilities(level) == [CanSee, CanCreate, CanEdit, CanDelete]
    ensures level == 1 ==> Capabilities(level) == [CanSee, CanCreate]
    ensures level == 0 ==> Capabilities(level) == [CanSee]
    ensures level !in {0, 1, 2} ==> Capabilities(level) == []
    ensures level == 2 ==> Names(Capabilities(level)) == ["can_see", "can_create", "can_edit", "can_delete"]
    ensures level == 1 ==> Names(Capabilities(level)) == ["can_see", "can_create"]
    ensures level == 0 ==> Names(Capabilities(level)) == ["can_see"]
  {
  }

  /** Each level has every capability of the level below it. */
  lemma CapabilitiesNested()
    ensures forall c :: c in Capabilities(0) ==> c in Capabilities(1)
    ensures forall c :: c in Capabilities(1) ==> c in Capabilities(2)
  {
  }

  // ---------------------------------------------------------------------
  // Document selection

  /** The `where('status', 1)` query: the active documents, in table order. */
  function Active(docs: seq<Document>): (r: seq<Document>)
    ensures forall d :: d in r <==> d in docs && d.status == 1
    ensures IsSubsequence(r, docs)
    ensures |r| <= |docs|
    ensures |r| == |docs| <==> forall i :: 0 <= i < |docs| ==> docs[i].status == 1
  {
    if docs == [] then []
    else if docs[0].status == 1 then [docs[0]] + Active(docs[1..])
    else Active(docs[1..])
  }

  /** The `filter` closure of `index`: the documents whose owner is `userId`, in order. */
  function OwnedBy(docs: seq<Document>, userId: int): (r: seq<Document>)
    ensures forall d :: d in r <==> d in docs && d.userId == userId
    ensures IsSubsequence(r, docs)
    ensures |r| <= |docs|
    ensures |r| == |docs| <==> forall i :: 0 <= i < |docs| ==> docs[i].userId == userId
  {
    if docs == [] then []
    else if docs[0].userId == userId then [docs[0]] + OwnedBy(docs[1..], userId)
    else OwnedBy(docs[1..], userId)
  }

  /** The properties `index` renders: the visible documents and the capability list. */
  datatype IndexPage = IndexPage(documents: seq<Document>, permissions: seq<Capability>)

  /**
   * `index`: a user whose level is exactly 0 sees their own active
   * documents; every other level, known or not, sees all active documents.
   */
  function Index(user: User, docs: seq<Document>): (page: IndexPage)
    ensures page.permissions == Capabilities(user.permissions)
    ensures forall d :: d in page.documents ==> d in docs && d.status == 1
    ensures IsSubsequence(page.documents, Active(docs))
    ensures user.permissions == 0 ==>
      forall d :: d in page.documents <==> d in docs && d.status == 1 && d.userId == user.id
    ensures user.permissions != 0 ==> page.documents == Active(docs)
  {
    var active := Active(docs);
    SubsequenceReflexive(active);
    var visible := if user.permissions == 0 then OwnedBy(active, user.id) else active;
    IndexPage(visible, Capabilities(user.permissions))
  }

  /** A level-0 user is never shown a document that belongs to someone else. */
  lemma LevelZeroSeesNoForeignDocument(user: User, docs: seq<Document>, i: nat)
    requires user.permissions == 0
    requires i < |Index(user, docs).documents|
    ensures Index(user, docs).documents[i].userId == user.id
  {
    assert Index(user, docs).documents[i] in Index(user, docs).documents;
  }

  /** A level outside 0..2 gets no capabilities and still sees every active document. */
  lemma UnknownLevelSeesAllActive(user: User, docs: seq<Document>)
    requires user.permissions !in {0, 1, 2}
    ensures Index(user, docs).permissions == []
    ensures Index(user, docs).documents == Active(docs)
  {
  }

  /** `stats`: every active document, whatever the user's level. */
  function Stats(docs: seq<Document>): (r: seq<Document>)
    ensures forall d :: d in r ==> d.status == 1
    ensures forall d :: d in docs && d.status == 1 ==> d in r
    ensures IsSubsequence(r, docs)
  {
    Active(docs)
  }

  /** What `index` shows a user of level 1 or 2 is exactly what `stats` shows. */
  lemma IndexAgreesWithStats(user: User, docs: seq<Document>)
    requires user.permissions != 0
    ensures Index(user, docs).documents == Stats(docs)
  {
  }

  // ---------------------------------------------------------------------
  // The document collection as `index` hands it over

  /**
   * The collection `index` passes to the page, with its array keys. The query
   * result is keyed 0, 1, 2, ... in order, and `filter` keeps the key of every
   * document it keeps instead of renumbering.
   */
  function IndexKeyed(user: User, docs: seq<Document>): (m: map<int, Document>)
    ensures forall p :: p in m <==>
      0 <= p < |Active(docs)| && (user.permissions == 0 ==> Active(docs)[p].userId == user.id)
    ensures forall p :: p in m ==> m[p] == Active(docs)[p]
  {
    var active := Active(docs);
    if user.permissions == 0 then map p | 0 <= p < |active| && active[p].userId == user.id :: active[p]
    else map p | 0 <= p < |active| :: active[p]
  }

  /**
   * A PHP array is serialised as a JSON list exactly when its keys are
   * 0, 1, 2, ... with none missing; otherwise it becomes a JSON object.
   */
  predicate IsList(m: map<int, Document>)
  {
    forall p :: p in m ==> 0 <= p && forall q :: 0 <= q < p ==> q in m
  }

  /**
   * The keyed collection is a list exactly when the level is not 0, or the
   * user's active documents come before every other active document.
   */
  lemma IndexKeyedIsListExactly(user: User, docs: seq<Document>)
    ensures IsList(IndexKeyed(user, docs)) <==>
      user.permissions != 0 ||
      forall p, q :: 0 <= p < q < |Active(docs)| && Active(docs)[q].userId == user.id ==> Active(docs)[p].userId == user.id
  {
    var m := IndexKeyed(user, docs);
    var active := Active(docs);
    if user.permissions == 0 && IsList(m) {
      forall p, q | 0 <= p < q < |active| && active[q].userId == user.id
        ensures active[p].userId == user.id
      {
        assert q in m;
      }
    } else if user.permissions != 0 ||
      forall p, q :: 0 <= p < q < |active| && active[q].userId == user.id ==> active[p].userId == user.id
    {
      forall p | p in m
        ensures 0 <= p && forall q :: 0 <= q < p ==> q in m
      {
      }
    }
  }

  /**
   * A level-0 user whose document is preceded by someone else's gets a
   * collection keyed from 1: it is serialised as an object, not a list,
   * although the documents to show are the list `[mine]`.
   */
  lemma IndexKeyedSkipsZero()
    ensures
      var other := Document(1, "a", "", 1, None, "", "", 1, 7);
      var mine := Document(2, "b", "", 1, None, "", "", 1, 5);
      var user := User(5, 0);
      && IndexKeyed(user, [other, mine]) == map[1 := mine]
      && !IsList(IndexKeyed(user, [other, mine]))
      && Index(user, [other, mine]).documents == [mine]
  {
    var other := Document(1, "a", "", 1, None, "", "", 1, 7);
    var mine := Document(2, "b", "", 1, None, "", "", 1, 5);
    var user := User(5, 0);
    assert Active([other, mine]) == [other, mine];
    assert 1 in IndexKeyed(user, [other, mine]);
  }

  /**
   * `Index` is the renumbered collection: the documents it lists are exactly
   * the values of the keyed collection.
   */
  lemma IndexListsKeyedValues(user: User, docs: seq<Document>)
    ensures forall p :: p in IndexKeyed(user, docs) ==> IndexKeyed(user, docs)[p] in Index(user, docs).documents
    ensures forall d :: d in Index(user, docs).documents ==>
      exists p :: p in IndexKeyed(user, docs) && IndexKeyed(user, docs)[p] == d
  {
    var m := IndexKeyed(user, docs);
    var active := Active(docs);
    forall p | p in m
      ensures m[p] in Index(user, docs).documents
    {
      assert active[p] in active;
    }
    forall d | d in Index(user, docs).documents
      ensures exists p :: p in m && m[p] == d
    {
      var p :| 0 <= p < |active| && active[p] == d;
      assert p in m;
    }
  }

  // ---------------------------------------------------------------------
  // Validation rules of `store`

  datatype Field = Name | Description | Priority

  /**
   * A request field as it arrives: text, a whole number, or any other kind
   * of value (an array, a file, a float, a boolean). A missing field and a
   * null field are both `None`. PHP's integer filter also reads an integral
   * float as its value and `true` as 1; here both are `Other`.
   */
  datatype Input = Text(text: string) | Whole(number: int) | Other

  datatype StoreRequest = StoreRequest(name: Option<Input>, description: Option<Input>, priority: Option<Input>)

  /** The validated fields of a new document. */
  datatype NewDocument = NewDocument(name: string, description: string, priority: int)

  /** The characters PHP's `trim` removes. */
  predicate IsTrimmed(c: char)
  {
    c == ' ' || c == '\t' || c == '\n' || c == '\r' || c as int == 0 || c as int == 11
  }

  /** The `required` rule: the field is there, is not null and is not blank text. */
  predicate Required(v: Option<Input>)
  {
    v.Some? && !(v.value.Text? && forall i :: 0 <= i < |v.value.text| ==> IsTrimmed(v.value.text[i]))
  }

  predicate IsDigit(c: char)
  {
    '0' as int <= c as int <= '9' as int
  }

  /** The value of a string of decimal digits. */
  function DigitsValue(s: string): (n: nat)
    requires forall i :: 0 <= i < |s| ==> IsDigit(s[i])
  {
    if s == [] then 0
    else
      assert IsDigit(s[|s| - 1]);
      DigitsValue(s[..|s| - 1]) * 10 + (s[|s| - 1] as int - '0' as int)
  }

  /** A text with its leading sign, if any, removed. */
  function Unsigned(s: string): string
  {
    if 0 < |s| && (s[0] == '+' || s[0] == '-') then s[1..] else s
  }

  /** One or more decimal digits, with no leading zero unless the digit string is "0". */
  predicate IsCanonicalDigits(d: string)
  {
    d != [] && (forall i :: 0 <= i < |d| ==> IsDigit(d[i])) && !(|d| > 1 && d[0] == '0')
  }

  /**
   * The `integer` rule on text: an optional sign followed by decimal digits
   * with no leading zero.
   */
  function ParseInteger(s: string): (r: Option<int>)
    ensures r.Some? <==> IsCanonicalDigits(Unsigned(s))
    ensures r.Some? && s[0] != '-' ==> r.value == DigitsValue(Unsigned(s))
    ensures r.Some? && s[0] == '-' ==> r.value + DigitsValue(Unsigned(s)) == 0
  {
    var digits := Unsigned(s);
    if !IsCanonicalDigits(digits) then None
    else
      var n: int := DigitsValue(digits);
      Some(if s[0] == '-' then -n else n)
  }

  /** The digit character for `d`. */
  function DigitChar(d: int): (c: char)
    requires 0 <= d < 10
    ensures IsDigit(c) && c as int - '0' as int == d
  {
    ('0' as int + d) as char
  }

  /** The usual decimal notation of `n`: its digits, most significant first. */
  function Decimal(n: nat): string
    decreases n
  {
    if n < 10 then [DigitChar(n)] else Decimal(n / 10) + [DigitChar(n % 10)]
  }

  /** The decimal notation is a canonical digit string that reads back as `n`. */
  lemma {:induction false} DecimalReadsBack(n: nat)
    ensures IsCanonicalDigits(Decimal(n))
    ensures DigitsValue(Decimal(n)) == n
    ensures Decimal(n)[0] == '0' <==> n == 0
  {
    var d := Decimal(n);
    if n < 10 {
      assert d == [DigitChar(n)];
      assert d[..|d| - 1] == [];
    } else {
      DecimalReadsBack(n / 10);
      var init := Decimal(n / 10);
      assert d == init + [DigitChar(n % 10)];
      assert d[..|d| - 1] == init;
      assert d[0] == init[0];
    }
  }

  /** A canonical digit string is the decimal notation of its own value. */
  lemma {:induction false} CanonicalIsDecimal(d: string)
    requires IsCanonicalDigits(d)
    ensures d == Decimal(DigitsValue(d))
  {
    var n := DigitsValue(d);
    if |d| == 1 {
      assert d[..|d| - 1] == [];
      assert n == DigitsValue([]) * 10 + (d[0] as int - '0' as int);
      assert Decimal(n) == [DigitChar(n)];
    } else {
      var init := d[..|d| - 1];
      assert init[0] == d[0];
      CanonicalIsDecimal(init);
      LongDigitsAtLeastTen(d);
      var last := d[|d| - 1] as int - '0' as int;
      assert n == DigitsValue(init) * 10 + last;
      assert n / 10 == DigitsValue(init) && n % 10 == last;
      assert Decimal(n) == init + [DigitChar(last)];
      assert d == init + [d[|d| - 1]];
    }
  }

  /**
   * Writing a number in decimal, with or without a sign, and reading it back
   * with the `integer` rule gives the number.
   */
  lemma ParseIntegerReadsDecimal(n: nat)
    ensures ParseInteger(Decimal(n)) == Some(n)
    ensures ParseInteger("+" + Decimal(n)) == Some(n)
    ensures ParseInteger("-" + Decimal(n)) == Some(-(n as int))
  {
    DecimalReadsBack(n);
    assert Unsigned(Decimal(n)) == Decimal(n);
    assert Unsigned("+" + Decimal(n)) == Decimal(n);
    assert Unsigned("-" + Decimal(n)) == Decimal(n);
  }

  /**
   * Conversely, a text the `integer` rule accepts is the decimal notation of
   * its value, preceded by `+` or nothing when the value is not negative and
   * by `-` when it is not positive.
   */
  lemma ParseIntegerOnlyDecimal(s: string, v: int)
    requires ParseInteger(s) == Some(v)
    ensures (v >= 0 && (s == Decimal(v) || s == "+" + Decimal(v))) || (v <= 0 && s == "-" + Decimal(-v))
  {
    var digits := Unsigned(s);
    CanonicalIsDecimal(digits);
    if s[0] == '+' || s[0] == '-' {
      assert s == [s[0]] + digits;
    }
  }

  /** The integer an input stands for under the `integer` rule, if any. */
  function IntegerValue(v: Input): Option<int>
  {
    match v
    case Whole(n) => Some(n)
    case Text(s) => ParseInteger(s)
    case Other => None
  }

  /** `required|string|max:<limit>`. */
  predicate TextOk(v: Option<Input>, limit: nat)
  {
    Required(v) && v.value.Text? && |v.value.text| <= limit
  }

  /** `required|integer|min:1|max:3`. */
  predicate PriorityOk(v: Option<Input>)
  {
    Required(v) && IntegerValue(v.value).Some? && 1 <= IntegerValue(v.value).value <= 3
  }

  /** The fields of `req` that break a rule. */
  function Violations(req: StoreRequest): set<Field>
  {
    (if TextOk(req.name, 50) then {} else {Name})
    + (if TextOk(req.description, 255) then {} else {Description})
    + (if PriorityOk(req.priority) then {} else {Priority})
  }

  datatype StoreResult = Valid(document: NewDocument) | Invalid(errors: set<Field>)

  /**
   * The validation `store` performs: either every rule holds and the fields
   * come out as given, or the request is refused with the set of offending
   * fields, none missing and none extra.
   */
  function ValidateStore(req: StoreRequest): (r: StoreResult)
    ensures r.Valid? <==> TextOk(req.name, 50) && TextOk(req.description, 255) && PriorityOk(req.priority)
    ensures r.Valid? ==>
      && req.name == Some(Text(r.document.name)) && |r.document.name| <= 50
      && req.description == Some(Text(r.document.description)) && |r.document.description| <= 255
      && IntegerValue(req.priority.value) == Some(r.document.priority)
      && 1 <= r.document.priority <= 3
    ensures r.Invalid? ==> r.errors != {}
    ensures r.Invalid? ==> (Name in r.errors <==> !TextOk(req.name, 50))
    ensures r.Invalid? ==> (Description in r.errors <==> !TextOk(req.description, 255))
    ensures r.Invalid? ==> (Priority in r.errors <==> !PriorityOk(req.priority))
  {
    var errors := Violations(req);
    if errors == {} then
      Valid(NewDocument(req.name.value.text, req.description.value.text, IntegerValue(req.priority.value).value))
    else
      Invalid(errors)
  }

  /** A request without a name is refused, and the name is among the reported fields. */
  lemma MissingNameRejected(req: StoreRequest)
    requires req.name.None?
    ensures ValidateStore(req).Invalid? && Name in ValidateStore(req).errors
  {
  }

  /** A digit string with no leading zero and two or more digits is at least 10. */
  lemma {:induction false} LongDigitsAtLeastTen(s: string)
    requires forall i :: 0 <= i < |s| ==> IsDigit(s[i])
    requires |s| > 1 && s[0] != '0'
    ensures DigitsValue(s) >= 10
  {
    var init := s[..|s| - 1];
    if |init| > 1 {
      LongDigitsAtLeastTen(init);
    } else {
      assert init == [s[0]];
      assert DigitsValue(init) == DigitsValue([]) * 10 + (s[0] as int - '0' as int);
    }
  }

  /**
   * The texts accepted as a priority are exactly "1", "2", "3", optionally
   * preceded by a plus sign.
   */
  lemma PriorityTexts(s: string)
    requires Required(Some(Text(s)))
    ensures PriorityOk(Some(Text(s))) <==> s in {"1", "2", "3", "+1", "+2", "+3"}
  {
    var digits := Unsigned(s);
    if PriorityOk(Some(Text(s))) {
      if |digits| > 1 {
        LongDigitsAtLeastTen(digits);
        assert false;
      }
      assert digits == [digits[0]];
      assert DigitsValue(digits) == DigitsValue([]) * 10 + (digits[0] as int - '0' as int);
      if s[0] == '+' {
        assert s == ['+', digits[0]];
      } else {
        assert s == [digits[0]];
      }
    }
  }
}
