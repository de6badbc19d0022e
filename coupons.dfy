/** The coupon table and its validator (backend/src/coupans/coupans.service.ts): the four
    rejection rules of `check`, the usage counter bumped by `incrementUsage`, and the
    table operations `create`, `findOne`, `update` and `remove`. */
module Coupons {
  import opened Wrappers
  import opened Text

  /** Document ids of the coupon collection. */
  type Id = string

  /** A stored coupon. `expiresAt` is an instant on the server's integer clock; money is exact. */
  datatype Coupon = Coupon(
    code: string,
    discountAmount: real,
    expiresAt: int,
    usedCount: nat,
    minOrderValue: Option<real>,
    maxUses: Option<nat>)

  /** The body of a create request; an absent `usedCount` defaults to 0. */
  datatype CouponDraft = CouponDraft(
    code: string,
    discountAmount: real,
    expiresAt: int,
    usedCount: Option<nat>,
    minOrderValue: Option<real>,
    maxUses: Option<nat>)

  /** The body of an update request: every field may be left out. */
  datatype CouponPatch = CouponPatch(
    code: Option<string>,
    discountAmount: Option<real>,
    expiresAt: Option<int>,
    usedCount: Option<nat>,
    minOrderValue: Option<real>,
    maxUses: Option<nat>)

  /** Why `check` turned a coupon down. */
  datatype Rejection =
    | NotFound
    | Expired
    | BelowMinimum(minOrderValue: real)
    | UsageLimitReached

  /** The reply of `check`. */
  datatype CheckResult = CheckResult(valid: bool, discountAmount: real, rejection: Option<Rejection>)

  /** Errors of the table operations: the unknown id, and the rejections of the collection's
      unique and required constraints on `code`. */
  datatype TableError = CouponNotFound(id: Id) | DuplicateCode(code: string) | MissingCode

  /** The message text of a rejection, for the three rules whose message is a constant; the
      minimum-order message also prints the amount, which is carried by `BelowMinimum`. */
  function FixedMessage(r: Rejection): string
    requires !r.BelowMinimum?
  {
    match r
    case NotFound => "Coupon not found"
    case Expired => "Coupon expired"
    case UsageLimitReached => "Coupon usage limit reached"
  }

  /** The message `check` sends with each constant-text refusal, and no two refusals share
      one. */
  lemma RejectionMessages(found: Option<Coupon>, subtotal: real, now: int)
    ensures found.None? ==> FixedMessage(Decide(found, subtotal, now).rejection.value) == "Coupon not found"
    ensures found.Some? && IsExpired(found.value, now) ==>
      FixedMessage(Decide(found, subtotal, now).rejection.value) == "Coupon expired"
    ensures Decide(found, subtotal, now).rejection == Some(UsageLimitReached) ==>
      FixedMessage(Decide(found, subtotal, now).rejection.value) == "Coupon usage limit reached"
    ensures forall a: Rejection, b: Rejection :: !a.BelowMinimum? && !b.BelowMinimum? && a != b ==>
      FixedMessage(a) != FixedMessage(b)
  {
  }

  /** `code.trim().toUpperCase()`: the form in which codes are looked up. */
  function Normalize(code: string): string
  {
    Upper(Trim(code))
  }

  // The three rules applied to a coupon that was found.

  predicate IsExpired(c: Coupon, now: int)
  {
    c.expiresAt < now
  }

  predicate IsBelowMinimum(c: Coupon, subtotal: real)
  {
    c.minOrderValue.Some? && subtotal < c.minOrderValue.value
  }

  predicate IsExhausted(c: Coupon)
  {
    c.maxUses.Some? && c.usedCount >= c.maxUses.value
  }

  /** The decision of `check` about the coupon the lookup returned (if any). The rules are
      tried in the order not found, expired, below minimum, usage limit; the first that fails
      decides the rejection. */
  function Decide(found: Option<Coupon>, subtotal: real, now: int): (r: CheckResult)
    ensures r.valid <==>
      found.Some? && !IsExpired(found.value, now) && !IsBelowMinimum(found.value, subtotal)
      && !IsExhausted(found.value)
    ensures r.valid ==> r.rejection == None && r.discountAmount == found.value.discountAmount
    ensures !r.valid ==> r.rejection.Some? && r.discountAmount == 0.0
    ensures r.rejection == Some(NotFound) <==> found == None
    ensures r.rejection == Some(Expired) <==> found.Some? && IsExpired(found.value, now)
    ensures r.rejection.Some? && r.rejection.value.BelowMinimum? <==>
      found.Some? && !IsExpired(found.value, now) && IsBelowMinimum(found.value, subtotal)
    ensures r.rejection.Some? && r.rejection.value.BelowMinimum? ==>
      r.rejection.value.minOrderValue == found.value.minOrderValue.value
    ensures r.rejection == Some(UsageLimitReached) <==>
      found.Some? && !IsExpired(found.value, now) && !IsBelowMinimum(found.value, subtotal)
      && IsExhausted(found.value)
  {
    if found.None? then
      CheckResult(false, 0.0, Some(NotFound))
    else
      var c := found.value;
      if c.expiresAt < now then
        CheckResult(false, 0.0, Some(Expired))
      else if c.minOrderValue.Some? && subtotal < c.minOrderValue.value then
        CheckResult(false, 0.0, Some(BelowMinimum(c.minOrderValue.value)))
      else if c.maxUses.Some? && c.usedCount >= c.maxUses.value then
        CheckResult(false, 0.0, Some(UsageLimitReached))
      else
        CheckResult(true, c.discountAmount, None)
  }

  /** The collection's unique index on `code`: no two documents share a code. */
  ghost predicate UniqueCodes(m: map<Id, Coupon>)
  {
    forall a, b :: a in m && b in m && a != b ==> m[a].code != m[b].code
  }

  /** `findOne({ code })`: the coupon whose stored code is exactly `code`. */
  ghost function ByCode(m: map<Id, Coupon>, code: string): (r: Option<Coupon>)
    requires UniqueCodes(m)
    ensures r.Some? <==> exists id :: id in m && m[id].code == code
    ensures r.Some? ==> r.value.code == code && r.value in m.Values
  {
    if exists id :: id in m && m[id].code == code then
      var id :| id in m && m[id].code == code; Some(m[id])
    else None
  }

  /** The table after `$inc: { usedCount: 1 }` on the document whose code is `code`. */
  ghost predicate IncrementedAt(before: map<Id, Coupon>, after: map<Id, Coupon>, code: string)
  {
    && after.Keys == before.Keys
    && forall id :: id in before ==>
         after[id] == if before[id].code == code
                      then before[id].(usedCount := before[id].usedCount + 1)
                      else before[id]
  }

  /** With unique codes, the document `findOne({ code })` returns is the one holding that code. */
  lemma ByCodeFinds(m: map<Id, Coupon>, code: string, id: Id)
    requires UniqueCodes(m) && id in m && m[id].code == code
    ensures ByCode(m, code) == Some(m[id])
  {
    var r := ByCode(m, code);
    var other :| other in m && m[other] == r.value;
    assert m[other].code == code;
  }

  /** The table with `usedCount` of every document holding `code` increased by one. */
  function IncrementedTable(m: map<Id, Coupon>, code: string): map<Id, Coupon>
  {
    map id | id in m :: if m[id].code == code then m[id].(usedCount := m[id].usedCount + 1) else m[id]
  }

  /** `IncrementedTable` is the increment `$inc` performs, and it keeps the codes unique. */
  lemma IncrementedTableSpec(m: map<Id, Coupon>, code: string)
    requires UniqueCodes(m)
    ensures IncrementedAt(m, IncrementedTable(m, code), code)
    ensures UniqueCodes(IncrementedTable(m, code))
  {
    var after := IncrementedTable(m, code);
    forall a, b | a in after && b in after && a != b ensures after[a].code != after[b].code {
      assert after[a].code == m[a].code && after[b].code == m[b].code;
    }
  }

  /** With unique codes, `$inc` changes the one document that holds the code, and only it. */
  lemma IncrementOne(m: map<Id, Coupon>, code: string, id: Id)
    requires UniqueCodes(m) && id in m && m[id].code == code
    ensures IncrementedTable(m, code) == m[id := m[id].(usedCount := m[id].usedCount + 1)]
  {
    var after := m[id := m[id].(usedCount := m[id].usedCount + 1)];
    forall other | other in m ensures IncrementedTable(m, code)[other] == after[other] {
      if other != id {
        assert m[other].code != m[id].code;
      }
    }
  }

  /** For a code no document holds, `$inc` changes nothing. */
  lemma IncrementMissing(m: map<Id, Coupon>, code: string)
    requires forall id :: id in m ==> m[id].code != code
    ensures IncrementedTable(m, code) == m
  {
  }

  /** A create request as the document it becomes. */
  function FromDraft(d: CouponDraft): (c: Coupon)
    ensures d.usedCount == None ==> c.usedCount == 0
    ensures c.code == d.code && c.discountAmount == d.discountAmount
  {
    Coupon(d.code, d.discountAmount, d.expiresAt, d.usedCount.GetOr(0),
           d.minOrderValue, d.maxUses)
  }

  /** A coupon with the given fields of an update request overwritten. */
  function Patched(c: Coupon, p: CouponPatch): Coupon
  {
    Coupon(p.code.GetOr(c.code), p.discountAmount.GetOr(c.discountAmount),
           p.expiresAt.GetOr(c.expiresAt), p.usedCount.GetOr(c.usedCount),
           if p.minOrderValue.Some? then p.minOrderValue else c.minOrderValue,
           if p.maxUses.Some? then p.maxUses else c.maxUses)
  }

  /** A document other than `id` holds `code`: the unique index refuses the update. */
  predicate CodeHeldElsewhere(m: map<Id, Coupon>, id: Id, code: string)
  {
    exists other :: other in m && other != id && m[other].code == code
  }

  /** The coupon collection and the service operations over it. */
  class CouponService {
    var coupons: map<Id, Coupon>

    ghost predicate Valid()
      reads this
    {
      UniqueCodes(coupons)
    }

    constructor()
      ensures Valid() && coupons == map[]
    {
      coupons := map[];
    }

    /** `create`: stores the request with `usedCount` defaulting to 0, under a fresh id. The
        code is stored exactly as given. */
    method Create(d: CouponDraft, newId: Id) returns (r: Result<Coupon, TableError>)
      requires Valid() && newId !in coupons
      modifies this
      ensures Valid()
      ensures d.code == [] ==> r == Err(MissingCode) && coupons == old(coupons)
      ensures d.code != [] && (exists id :: id in old(coupons) && old(coupons)[id].code == d.code) ==>
        r == Err(DuplicateCode(d.code)) && coupons == old(coupons)
      ensures r.Ok? ==> r.value == FromDraft(d) && coupons == old(coupons)[newId := r.value]
      ensures d.code != [] && (forall id :: id in old(coupons) ==> old(coupons)[id].code != d.code) ==> r.Ok?
    {
      if d.code == [] {
        return Err(MissingCode);
      }
      if exists id | id in coupons :: coupons[id].code == d.code {
        return Err(DuplicateCode(d.code));
      }
      var c := FromDraft(d);
      coupons := coupons[newId := c];
      r := Ok(c);
    }

    /** `create` as its lookups evidently intend: the code is stored in the normalized form
        that `check` and `incrementUsage` look up. */
    method CreateNormalized(d: CouponDraft, newId: Id) returns (r: Result<Coupon, TableError>)
      requires Valid() && newId !in coupons
      modifies this
      ensures Valid()
      ensures Normalize(d.code) == [] ==> r == Err(MissingCode) && coupons == old(coupons)
      ensures Normalize(d.code) != [] && (exists id :: id in old(coupons) && old(coupons)[id].code == Normalize(d.code)) ==>
        r == Err(DuplicateCode(Normalize(d.code))) && coupons == old(coupons)
      ensures r.Ok? ==> r.value == FromDraft(d.(code := Normalize(d.code)))
                        && coupons == old(coupons)[newId := r.value]
      ensures Normalize(d.code) != [] && (forall id :: id in old(coupons) ==> old(coupons)[id].code != Normalize(d.code)) ==> r.Ok?
    {
      var key := Normalize(d.code);
      if key == [] {
        return Err(MissingCode);
      }
      if exists id | id in coupons :: coupons[id].code == key {
        return Err(DuplicateCode(key));
      }
      var c := FromDraft(d.(code := key));
      coupons := coupons[newId := c];
      r := Ok(c);
    }

    /** `findOne`. */
    method FindOne(id: Id) returns (r: Result<Coupon, TableError>)
      ensures id in coupons ==> r == Ok(coupons[id])
      ensures id !in coupons ==> r == Err(CouponNotFound(id))
    {
      if id in coupons {
        r := Ok(coupons[id]);
      } else {
        r := Err(CouponNotFound(id));
      }
    }

    /** `update`: overwrites the given fields and returns the new document. */
    method Update(id: Id, p: CouponPatch) returns (r: Result<Coupon, TableError>)
      requires Valid()
      modifies this
      ensures Valid()
      ensures id !in old(coupons) ==> r == Err(CouponNotFound(id))
      ensures r.Err? ==> coupons == old(coupons)
      ensures r.Ok? ==> id in old(coupons) && r.value == Patched(old(coupons)[id], p)
                        && coupons == old(coupons)[id := r.value]
      ensures id in old(coupons) ==>
        var c := Patched(old(coupons)[id], p);
        && (c.code == [] ==> r == Err(MissingCode))
        && (c.code != [] && CodeHeldElsewhere(old(coupons), id, c.code) ==> r == Err(DuplicateCode(c.code)))
        && (c.code != [] && !CodeHeldElsewhere(old(coupons), id, c.code) ==> r.Ok?)
    {
      if id !in coupons {
        return Err(CouponNotFound(id));
      }
      var c := Patched(coupons[id], p);
      if c.code == [] {
        return Err(MissingCode);
      }
      if CodeHeldElsewhere(coupons, id, c.code) {
        return Err(DuplicateCode(c.code));
      }
      coupons := coupons[id := c];
      r := Ok(c);
    }

    /** `remove`. */
    method Remove(id: Id) returns (r: Result<(), TableError>)
      requires Valid()
      modifies this
      ensures Valid()
      ensures id in old(coupons) ==> r == Ok(()) && coupons == old(coupons) - {id}
      ensures id !in old(coupons) ==> r == Err(CouponNotFound(id)) && coupons == old(coupons)
    {
      if id !in coupons {
        return Err(CouponNotFound(id));
      }
      coupons := coupons - {id};
      r := Ok(());
    }

    /** `check`: looks the normalized code up and applies the rules. Reads the table only. */
    method Check(code: string, subtotal: real, now: int) returns (r: CheckResult)
      requires Valid()
      ensures r == Decide(ByCode(coupons, Normalize(code)), subtotal, now)
    {
      var key := Normalize(code);
      if exists id | id in coupons :: coupons[id].code == key {
        var id :| id in coupons && coupons[id].code == key;
        ByCodeFinds(coupons, key, id);
        r := Decide(Some(coupons[id]), subtotal, now);
      } else {
        r := Decide(None, subtotal, now);
      }
    }

    /** `incrementUsage`: adds one to `usedCount` of the coupon with the normalized code, if
        there is one; nothing else changes. */
    method IncrementUsage(code: string)
      requires Valid()
      modifies this
      ensures Valid()
      ensures IncrementedAt(old(coupons), coupons, Normalize(code))
    {
      var key := Normalize(code);
      IncrementedTableSpec(coupons, key);
      coupons := IncrementedTable(coupons, key);
    }
  }

  // Properties of the code normalization and the rules.

  /** Upper-casing a character forgets any earlier change of its case. */
  lemma UpperCharAbsorbs(c: char)
    ensures UpperChar(UpperChar(c)) == UpperChar(c)
    ensures UpperChar(LowerChar(c)) == UpperChar(c)
  {
  }

  /** Normalizing twice is normalizing once. */
  lemma NormalizeIdempotent(code: string)
    ensures Normalize(Normalize(code)) == Normalize(code)
  {
    var t := Trim(code);
    TrimOfUpperTrimmed(code);
    UpperIdempotent(t);
  }

  /** A normalized code has nothing left to trim. */
  lemma TrimOfUpperTrimmed(code: string)
    ensures Trim(Upper(Trim(code))) == Upper(Trim(code))
  {
    var t := Trim(code);
    CaseMapsKeepSpace();
    TrimMap(t, UpperChar);
    TrimBounds(code);
    TrimOfTrimmed(t);
  }

  /** Upper-casing twice is upper-casing once. */
  lemma UpperIdempotent(t: string)
    ensures Upper(Upper(t)) == Upper(t)
  {
    forall i | 0 <= i < |t| ensures UpperChar(UpperChar(t[i])) == UpperChar(t[i]) {
      UpperCharAbsorbs(t[i]);
    }
  }

  /** Codes that differ only in the case of their letters are normalized alike. */
  lemma NormalizeIgnoresCase(code: string)
    ensures Normalize(Lower(code)) == Normalize(code)
    ensures Normalize(Upper(code)) == Normalize(code)
  {
    CaseMapsKeepSpace();
    TrimMap(code, LowerChar);
    TrimMap(code, UpperChar);
    var t := Trim(code);
    forall i | 0 <= i < |t| ensures UpperChar(LowerChar(t[i])) == UpperChar(t[i]) {
      UpperCharAbsorbs(t[i]);
    }
    forall i | 0 <= i < |t| ensures UpperChar(UpperChar(t[i])) == UpperChar(t[i]) {
      UpperCharAbsorbs(t[i]);
    }
    assert Upper(Lower(t)) == Upper(t);
    assert Upper(Upper(t)) == Upper(t);
  }

  /** Codes that differ only in surrounding white space are normalized alike. */
  lemma NormalizeIgnoresPadding(pre: string, code: string, post: string)
    requires AllSpace(pre) && AllSpace(post)
    ensures Normalize(pre + code + post) == Normalize(code)
  {
    TrimPadded(pre, code, post);
  }

  /** `check` answers alike for codes that differ only in letter case or surrounding white
      space. */
  lemma CheckIgnoresCaseAndPadding(m: map<Id, Coupon>, pre: string, code: string, post: string,
                                   subtotal: real, now: int)
    requires UniqueCodes(m) && AllSpace(pre) && AllSpace(post)
    ensures Decide(ByCode(m, Normalize(pre + Lower(code) + post)), subtotal, now)
         == Decide(ByCode(m, Normalize(code)), subtotal, now)
  {
    NormalizeIgnoresPadding(pre, Lower(code), post);
    NormalizeIgnoresCase(code);
  }

  /** A coupon whose stored code is not in normalized form is never found by `check` or
      `incrementUsage`, whatever code the client sends. */
  lemma UnnormalizedCodeUnreachable(m: map<Id, Coupon>, id: Id, sent: string)
    requires UniqueCodes(m) && id in m && Normalize(m[id].code) != m[id].code
    ensures ByCode(m, Normalize(sent)) != Some(m[id])
    ensures !IncrementedAt(m, m[id := m[id].(usedCount := m[id].usedCount + 1)], Normalize(sent))
  {
    NormalizeIdempotent(sent);
  }

  /** Once its usage limit is reached a coupon is refused at every time and for every
      subtotal, and further increments keep it refused. */
  lemma ExhaustedStaysRefused(c: Coupon, subtotal: real, now: int, extra: nat)
    requires IsExhausted(c)
    ensures !Decide(Some(c), subtotal, now).valid
    ensures !Decide(Some(c.(usedCount := c.usedCount + extra)), subtotal, now).valid
  {
  }

  /** Concrete instance: a lower-case code created through `create` is not found when a client
      sends that very code. */
  lemma LowercaseCodeNotFound(m: map<Id, Coupon>, id: Id)
    requires UniqueCodes(m) && id in m && m[id].code == "save10"
    ensures ByCode(m, Normalize("save10")) != Some(m[id])
  {
    assert Trim("save10") == "save10";
    assert Normalize("save10")[0] == 'S';
    UnnormalizedCodeUnreachable(m, id, "save10");
  }

  /** A coupon stored by `CreateNormalized` is found by `check` whether the client sends the
      code as typed at creation, in lower case, or padded with white space. */
  lemma NormalizedCodeReachable(m: map<Id, Coupon>, id: Id, typed: string, pre: string, post: string)
    requires UniqueCodes(m) && id in m && m[id].code == Normalize(typed)
    requires AllSpace(pre) && AllSpace(post)
    ensures ByCode(m, Normalize(typed)) == Some(m[id])
    ensures ByCode(m, Normalize(pre + Lower(typed) + post)) == Some(m[id])
    ensures IncrementedTable(m, Normalize(pre + Lower(typed) + post))
         == m[id := m[id].(usedCount := m[id].usedCount + 1)]
  {
    NormalizeIgnoresPadding(pre, Lower(typed), post);
    NormalizeIgnoresCase(typed);
    ByCodeFinds(m, Normalize(typed), id);
    IncrementOne(m, Normalize(typed), id);
  }
}
