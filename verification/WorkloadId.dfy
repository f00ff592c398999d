/** Runner workload identifiers (internal/reconciler/workload_id.go). */
module WorkloadId {
  import opened Records

  const PREFIX := "workload-"

  predicate IsHex(c: char) {
    '0' <= c <= '9' || 'a' <= c <= 'f' || 'A' <= c <= 'F'
  }

  predicate IsCanonicalUuid(s: string) {
    && |s| == 36
    && forall i :: 0 <= i < 36 ==> if i == 8 || i == 13 || i == 18 || i == 23 then s[i] == '-' else IsHex(s[i])
  }

  function ToLower(s: string): string {
    seq(|s|, i requires 0 <= i < |s| => if 'A' <= s[i] <= 'Z' then s[i] - 'A' + 'a' else s[i])
  }

  /** The spellings google/uuid parses: canonical, with a urn prefix, in braces, or bare digits. */
  predicate IsUuid(s: string) {
    || IsCanonicalUuid(s)
    || (|s| == 45 && ToLower(s[..9]) == "urn:uuid:" && IsCanonicalUuid(s[9..]))
    || (|s| == 38 && IsCanonicalUuid(s[1..37]))
    || (|s| == 32 && forall i :: 0 <= i < 32 ==> IsHex(s[i]))
  }

  /** Drops the prefix when a UUID follows it. */
  function Normalize(id: Id): Id {
    if PREFIX <= id && IsUuid(id[|PREFIX|..]) then id[|PREFIX|..] else id
  }

  /** No UUID starts with the prefix, so an identifier is never stripped twice. */
  lemma PrefixedIsNoUuid(s: string)
    requires PREFIX <= s
    ensures !IsUuid(s)
  {
    assert s[0] == 'w' && s[1] == 'o';
    assert !IsHex(s[0]) && !IsHex(s[1]);
    if |s| == 45 { assert ToLower(s[..9])[0] == 'w'; }
    if |s| == 38 { assert s[1..37][0] == 'o'; }
  }

  /** Normalizing is idempotent. */
  lemma NormalizeIdempotent(id: Id)
    ensures Normalize(Normalize(id)) == Normalize(id)
  {
    var once := Normalize(id);
    if PREFIX <= once && IsUuid(once[|PREFIX|..]) && once != id {
      PrefixedIsNoUuid(once);
    }
  }

  /** Two identifiers normalize alike iff they are equal or one is the other, a UUID, with the prefix. */
  lemma NormalizeFibres(a: Id, b: Id)
    ensures Normalize(a) == Normalize(b) <==>
      a == b || (IsUuid(a) && b == PREFIX + a) || (IsUuid(b) && a == PREFIX + b)
  {
    if IsUuid(a) && PREFIX <= a { PrefixedIsNoUuid(a); }
    if IsUuid(b) && PREFIX <= b { PrefixedIsNoUuid(b); }
    assert (PREFIX + a)[|PREFIX|..] == a && (PREFIX + b)[|PREFIX|..] == b;
    if PREFIX <= a { assert a == PREFIX + a[|PREFIX|..]; }
    if PREFIX <= b { assert b == PREFIX + b[|PREFIX|..]; }
  }

  /**
   * The instance ids, among those that a runner knows, that a stop or an inspection with this id finds: at
   * most one.
   */
  function StopTarget(ids: set<Id>, id: Id): set<Id> {
    if id in ids then {id} else if IsUuid(id) && PREFIX + id in ids then {PREFIX + id} else {}
  }

  /** A runner may put its prefix before the UUID of a workload; anything else is an id of its own. */
  lemma NormalizeMeans(u: string)
    ensures IsCanonicalUuid(u) ==> Normalize("workload-" + u) == u && Normalize(u) == u
    ensures |u| < 32 ==> Normalize("workload-" + u) == "workload-" + u
    ensures !("workload-" <= u) ==> Normalize(u) == u
  {
    assert ("workload-" + u)[|PREFIX|..] == u;
    if IsCanonicalUuid(u) && PREFIX <= u {
      PrefixedIsNoUuid(u);
    }
  }
}
