/** Tenant scoping of collection names, services/tenancy.py. */
module Tenancy {
  import opened Wrappers

  const SEPARATOR := "__"

  datatype Refusal = TenantForbidden

  predicate Alphanumeric(c: char) {
    'a' <= c <= 'z' || 'A' <= c <= 'Z' || '0' <= c <= '9'
  }

  predicate TenantChar(c: char) {
    Alphanumeric(c) || c == '.' || c == '_' || c == '-'
  }

  /** The pattern; its `$` also matches before one final newline. */
  predicate Patterned(tenant: string) {
    var body := if tenant != "" && tenant[|tenant| - 1] == '\n' then tenant[..|tenant| - 1] else tenant;
    WellFormed(body)
  }

  predicate WellFormed(body: string) {
    body != "" && Alphanumeric(body[0]) && forall i :: 0 <= i < |body| ==> TenantChar(body[i])
  }

  /** `SEPARATOR in tenant`. */
  predicate ContainsSeparator(tenant: string) {
    exists i :: 0 <= i < |tenant| - 1 && SeparatorAt(tenant, i)
  }

  predicate SeparatorAt(tenant: string, i: nat)
    requires i < |tenant| - 1
  {
    tenant[i..i + 2] == SEPARATOR
  }

  predicate EndsInHalfSeparator(tenant: string) {
    tenant != "" && tenant[|tenant| - 1] == SEPARATOR[0]
  }

  predicate Valid(tenant: string) {
    Patterned(tenant) && !ContainsSeparator(tenant) && !EndsInHalfSeparator(tenant)
  }

  lemma {:induction false} SeparatedExactly(tenant: string)
    ensures ContainsSeparator(tenant) <==> exists i :: 0 < i < |tenant| && tenant[i - 1] == '_' && tenant[i] == '_'
  {
    forall i | 0 < i < |tenant|
      ensures SeparatorAt(tenant, i - 1) <==> tenant[i - 1] == '_' && tenant[i] == '_'
    {
      assert tenant[i - 1..i + 1] == [tenant[i - 1], tenant[i]];
    }
    if i :| 0 <= i < |tenant| - 1 && SeparatorAt(tenant, i) {
      assert tenant[(i + 1) - 1] == '_' && tenant[i + 1] == '_';
    }
  }

  lemma {:induction false} PatternedExactly(tenant: string, body: string)
    requires tenant == body + "\n" || (tenant == body && (body == "" || body[|body| - 1] != '\n'))
    ensures Patterned(tenant) <==> WellFormed(body)
  {
    if tenant == body + "\n" {
      assert tenant[..|tenant| - 1] == body && tenant[|tenant| - 1] == '\n';
    }
  }

  /** The rule, character by character: one final newline is looked past, as the pattern does. */
  lemma {:induction false} ValidExactly(tenant: string, body: string)
    requires tenant == body + "\n" || (tenant == body && (body == "" || body[|body| - 1] != '\n'))
    ensures Valid(tenant) <==>
            && body != "" && Alphanumeric(body[0])
            && (forall i :: 0 <= i < |body| ==>
                  Alphanumeric(body[i]) || body[i] == '.' || body[i] == '_' || body[i] == '-')
            && !(exists i :: 0 < i < |tenant| && tenant[i - 1] == '_' && tenant[i] == '_')
            && tenant[|tenant| - 1] != '_'
  {
    PatternedExactly(tenant, body);
    SeparatedExactly(tenant);
  }

  function Validated(tenant: string): Result<string, Refusal> {
    if Valid(tenant) then Ok(tenant) else Err(TenantForbidden)
  }

  function ScopedName(name: string, tenant: Option<string>): Result<string, Refusal> {
    match tenant
    case None => Ok(name)
    case Some(t) => var v :- Validated(t); Ok(v + SEPARATOR + name)
  }

  function UnscopedName(name: string, tenant: Option<string>): Result<string, Refusal> {
    match tenant
    case None => Ok(name)
    case Some(t) =>
      var v :- Validated(t);
      var prefix := v + SEPARATOR;
      Ok(if prefix <= name then name[|prefix|..] else name)
  }

  function VisibleTo(name: string, tenant: Option<string>): Result<bool, Refusal> {
    match tenant
    case None => Ok(true)
    case Some(t) => var v :- Validated(t); Ok(v + SEPARATOR <= name)
  }

  /** Two tenants, valid or not, can be made to address one name exactly when one's prefix starts the other's. */
  lemma {:induction false} CollisionExactlyWhenPrefixesNest(s: string, t: string)
    ensures (exists m, n :: s + SEPARATOR + m == t + SEPARATOR + n)
       <==> s + SEPARATOR <= t + SEPARATOR || t + SEPARATOR <= s + SEPARATOR
  {
    var p, q := s + SEPARATOR, t + SEPARATOR;
    if m, n :| p + m == q + n {
      assert (p + m)[..|p|] == p && (q + n)[..|q|] == q;
      if |p| <= |q| {
        assert q[..|p|] == (q + n)[..|p|] == p;
      } else {
        assert p[..|q|] == (p + m)[..|q|] == q;
      }
    }
    if p <= q {
      assert p + q[|p|..] == q + "";
      assert s + SEPARATOR + q[|p|..] == t + SEPARATOR + "";
    }
    if q <= p {
      assert q + p[|q|..] == p + "";
      assert s + SEPARATOR + "" == t + SEPARATOR + p[|q|..];
    }
  }

  /** A longer tenant nesting a shorter one needs the separator inside it, or half of it at its end. */
  lemma {:induction false} NestedPrefixes(s: string, t: string)
    requires s + SEPARATOR <= t + SEPARATOR
    ensures s == t || ContainsSeparator(t) || EndsInHalfSeparator(t)
  {
    var p, q := s + SEPARATOR, t + SEPARATOR;
    assert p[|s|] == q[|s|] && p[|s| + 1] == q[|s| + 1];
    assert s == p[..|s|] == q[..|s|];
    if |t| == |s| {
      assert t == q[..|s|];
    } else if |t| == |s| + 1 {
      assert t[|s|] == q[|s|];
    } else {
      assert t[|s|..|s| + 2] == [q[|s|], q[|s| + 1]] && SeparatorAt(t, |s|);
    }
  }

  /** One tenant's names are never another's. */
  lemma {:induction false} VisibleExactlyToItsOwner(name: string, tenant: string, other: string)
    requires Valid(tenant) && Valid(other)
    ensures VisibleTo(ScopedName(name, Some(tenant)).value, Some(other)) == Ok(tenant == other)
  {
    var full := tenant + SEPARATOR + name;
    if other + SEPARATOR <= full {
      assert other + SEPARATOR + full[|other| + 2..] == tenant + SEPARATOR + name;
      CollisionExactlyWhenPrefixesNest(other, tenant);
      if other + SEPARATOR <= tenant + SEPARATOR {
        NestedPrefixes(other, tenant);
      } else {
        NestedPrefixes(tenant, other);
      }
    }
  }

  lemma {:induction false} ScopingInjective(name: string, tenant: string, name': string, tenant': string)
    requires Valid(tenant) && Valid(tenant')
    ensures ScopedName(name, Some(tenant)) == ScopedName(name', Some(tenant')) <==> tenant == tenant' && name == name'
  {
    if ScopedName(name, Some(tenant)) == ScopedName(name', Some(tenant')) {
      VisibleExactlyToItsOwner(name, tenant, tenant');
      UnscopingInverts(name, Some(tenant));
      UnscopingInverts(name', Some(tenant'));
    }
  }

  /** What a tenant sees is what it named, and a name of somebody else's comes back as it is. */
  lemma {:induction false} UnscopingInverts(name: string, tenant: Option<string>)
    requires tenant.Some? ==> Valid(tenant.value)
    ensures UnscopedName(ScopedName(name, tenant).value, tenant) == Ok(name)
  {
    if tenant.Some? {
      assert (tenant.value + SEPARATOR + name)[|tenant.value| + 2..] == name;
    }
  }

  lemma {:induction false} ForeignNamesAreUntouched(name: string, tenant: string, other: string)
    requires Valid(tenant) && Valid(other) && tenant != other
    ensures UnscopedName(ScopedName(name, Some(tenant)).value, Some(other)) == ScopedName(name, Some(tenant))
  {
    VisibleExactlyToItsOwner(name, tenant, other);
  }

  /** Every operation refuses an invalid tenant the same way. */
  lemma {:induction false} InvalidTenantsAreRefused(name: string, tenant: string)
    ensures ScopedName(name, Some(tenant)).Err? <==> !Valid(tenant)
    ensures UnscopedName(name, Some(tenant)).Err? <==> !Valid(tenant)
    ensures VisibleTo(name, Some(tenant)).Err? <==> !Valid(tenant)
  {
  }

  /** Without the rule on the last character two tenants share a name. */
  lemma {:induction false} TrailingRuleIsNeeded(name: string)
    ensures Patterned("a_") && !ContainsSeparator("a_") && Valid("a")
    ensures "a_" + SEPARATOR + name == "a" + SEPARATOR + ("_" + name)
  {
    var t := "a_";
    assert WellFormed(t) && WellFormed("a");
    assert t[|t| - 1] != '\n' && "a"[0] != '\n';
    assert t[0..2] == t;
  }

  /** Without the rule on the separator two tenants share a name. */
  lemma {:induction false} SeparatorRuleIsNeeded(name: string)
    ensures Patterned("a__b") && !EndsInHalfSeparator("a__b") && Valid("a")
    ensures "a__b" + SEPARATOR + name == "a" + SEPARATOR + ("b" + SEPARATOR + name)
  {
    var t := "a__b";
    assert WellFormed(t) && WellFormed("a");
    assert t[|t| - 1] != '\n' && "a"[0] != '\n';
  }
}
