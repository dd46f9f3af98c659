/** Keys of the list cache, and invalidation of one list by a cursor scan. */
module ListCache {
  import opened Values

  const CACHE_PREFIX := "crm4u:cache:"

  datatype KeyResult = NoTenant | Ok(key: string)

  /** There is no fallback tenant: without one no key is built. */
  function ListPrefix(tenant: Option<string>, resource: string): KeyResult {
    if tenant.Some? && tenant.value != "" then Ok(tenant.value + ":" + resource + ":") else NoTenant
  }

  function ListKey(tenant: Option<string>, resource: string, variant: string): KeyResult {
    match ListPrefix(tenant, resource)
    case NoTenant => NoTenant
    case Ok(prefix) => Ok(prefix + variant)
  }

  /** A name that neither the key separator nor the pattern language reads as anything else. */
  predicate PlainName(name: string) {
    forall c :: c in name ==> c !in ":*?[]\\"
  }

  lemma {:induction false} SplitAtColon(a: string, b: string, x: string, y: string)
    requires ':' !in a && ':' !in b
    requires a + ":" + x <= b + ":" + y
    ensures a == b && x <= y
  {
    var l, r := a + ":" + x, b + ":" + y;
    assert l[0] == (if a == [] then ':' else a[0]) && r[0] == (if b == [] then ':' else b[0]);
    assert l[0] == r[0];
    if a == [] {
      assert l[1..] == x && r[1..] == y;
    } else {
      assert l[1..] == a[1..] + ":" + x && r[1..] == b[1..] + ":" + y;
      SplitAtColon(a[1..], b[1..], x, y);
      assert a == [a[0]] + a[1..] && b == [b[0]] + b[1..];
    }
  }

  /** A list's prefix is a prefix of exactly that list's keys. */
  lemma PrefixMeetsOwnKeys(t1: string, r1: string, t2: string, r2: string, variant: string)
    requires PlainName(t1) && PlainName(r1) && PlainName(t2) && PlainName(r2) && t1 != "" && t2 != ""
    ensures ListPrefix(Some(t1), r1).key <= ListKey(Some(t2), r2, variant).key <==> t1 == t2 && r1 == r2
  {
    var p, k := ListPrefix(Some(t1), r1).key, ListKey(Some(t2), r2, variant).key;
    assert p == t1 + ":" + (r1 + ":" + "") && k == t2 + ":" + (r2 + ":" + variant);
    if p <= k {
      SplitAtColon(t1, t2, r1 + ":" + "", r2 + ":" + variant);
      SplitAtColon(r1, r2, "", variant);
    }
  }

  /** Keys of plain names are never shared: not by two tenants, two resources, or two variants. */
  lemma ListKeyIsInjective(t1: string, r1: string, v1: string, t2: string, r2: string, v2: string)
    requires PlainName(t1) && PlainName(r1) && PlainName(t2) && PlainName(r2) && t1 != "" && t2 != ""
    requires ListKey(Some(t1), r1, v1) == ListKey(Some(t2), r2, v2)
    ensures t1 == t2 && r1 == r2 && v1 == v2
  {
    var k1, k2 := ListKey(Some(t1), r1, v1).key, ListKey(Some(t2), r2, v2).key;
    assert k1 == t1 + ":" + (r1 + ":" + v1) && k2 == t2 + ":" + (r2 + ":" + v2);
    SplitAtColon(t1, t2, r1 + ":" + v1, r2 + ":" + v2);
    SplitAtColon(r1, r2, v1, v2);
    SplitAtColon(t2, t1, r2 + ":" + v2, r1 + ":" + v1);
    SplitAtColon(r2, r1, v2, v1);
  }

  // ---- the store's pattern language, as far as patterns without character classes use it ----

  predicate Glob(pattern: string, s: string)
    decreases |pattern|, |s|
  {
    if pattern == "" then s == ""
    else if pattern[0] == '*' then Glob(pattern[1..], s) || (s != "" && Glob(pattern, s[1..]))
    else if pattern[0] == '?' then s != "" && Glob(pattern[1..], s[1..])
    else if pattern[0] == '\\' && |pattern| > 1 then s != "" && s[0] == pattern[1] && Glob(pattern[2..], s[1..])
    else s != "" && s[0] == pattern[0] && Glob(pattern[1..], s[1..])
  }

  lemma {:induction false} StarMatchesAll(s: string)
    ensures Glob("*", s)
  {
    assert "*"[1..] == "";
    if s != "" {
      StarMatchesAll(s[1..]);
    }
  }

  /** A pattern of plain characters and a final star matches what starts with them. */
  lemma {:induction false} PrefixPattern(prefix: string, s: string)
    requires forall c :: c in prefix ==> c !in "*?[]\\"
    ensures Glob(prefix + "*", s) <==> prefix <= s
  {
    if prefix == "" {
      assert prefix + "*" == "*";
      StarMatchesAll(s);
    } else {
      var pattern := prefix + "*";
      assert pattern[0] == prefix[0] && prefix[0] in prefix && pattern[1..] == prefix[1..] + "*";
      if s != "" {
        PrefixPattern(prefix[1..], s[1..]);
        assert s == [s[0]] + s[1..] && prefix == [prefix[0]] + prefix[1..];
      }
    }
  }

  // ---- the scan loop ----

  /** One page of a scan: the keys it returns and whether the cursor is back at the start, and what other
      clients wrote and deleted before it came. A page may also fail. */
  datatype Page = Page(keys: seq<string>, last: bool, written: set<string>, deleted: set<string>) | Failed

  /** All keys the pages returned. */
  ghost function Returned(pages: seq<Page>): set<string> {
    if pages == [] then {}
    else
      var p := pages[|pages| - 1];
      Returned(pages[..|pages| - 1]) + if p.Page? then set k | k in p.keys else {}
  }

  /** The store after the pages' traffic and deletions. */
  ghost function Deleted(keys: set<string>, pages: seq<Page>): set<string> {
    if pages == [] then keys
    else
      var before, p := Deleted(keys, pages[..|pages| - 1]), pages[|pages| - 1];
      if p.Page? then before + p.written - p.deleted - (set k | k in p.keys) else before
  }

  class CacheStore {
    var keys: set<string>

    /** Deletes every key a scan for the pattern returns, page after page. The loop ends at the last page or
        at the first failure; `pages` lists what the store will answer. Ghost results: how many pages were
        read, and every key deleted here. */
    method CacheDel(prefix: string, pages: seq<Page>) returns (ghost read: nat, ghost removed: set<string>)
      requires exists i :: 0 <= i < |pages| && (pages[i].Failed? || pages[i].last)
      requires forall p :: p in pages && p.Page? ==> forall k :: k in p.keys ==> Glob(CACHE_PREFIX + prefix + "*", k)
      modifies this
      ensures 0 < read <= |pages|
      ensures forall i :: 0 <= i < read - 1 ==> pages[i].Page? && !pages[i].last
      ensures pages[read - 1].Failed? || pages[read - 1].last
      ensures removed == Returned(pages[..read])
      ensures keys == Deleted(old(keys), pages[..read])
    {
      var i := 0;
      removed := {};
      assert pages[..0] == [];
      while true
        invariant 0 <= i < |pages|
        invariant exists j :: i <= j < |pages| && (pages[j].Failed? || pages[j].last)
        invariant forall j :: 0 <= j < i ==> pages[j].Page? && !pages[j].last
        invariant removed == Returned(pages[..i]) && keys == Deleted(old(keys), pages[..i])
        decreases |pages| - i
      {
        var page := pages[i];
        assert pages[..i + 1][..i] == pages[..i] && pages[..i + 1][i] == page;
        i := i + 1;
        read := i;
        if page.Failed? { return; }
        // the other clients' traffic, then the page, then the deletion of what it returned
        keys := keys + page.written - page.deleted;
        if |page.keys| > 0 {
          keys := keys - (set k | k in page.keys);
          removed := removed + (set k | k in page.keys);
        }
        if page.last { return; }
      }
    }

    method InvalidateList(tenant: Option<string>, resource: string, pages: seq<Page>)
      returns (refused: bool, ghost read: nat, ghost removed: set<string>)
      requires exists i :: 0 <= i < |pages| && (pages[i].Failed? || pages[i].last)
      requires ListPrefix(tenant, resource).Ok? ==>
                 forall p :: p in pages && p.Page? ==>
                   forall k :: k in p.keys ==> Glob(CACHE_PREFIX + ListPrefix(tenant, resource).key + "*", k)
      modifies this
      ensures refused <==> tenant == None || tenant.value == ""
      ensures refused ==> keys == old(keys) && removed == {}
      ensures !refused ==>
                && 0 < read <= |pages| && removed == Returned(pages[..read])
                && (forall i :: 0 <= i < read - 1 ==> pages[i].Page? && !pages[i].last)
                && (pages[read - 1].Failed? || pages[read - 1].last)
                && keys == Deleted(old(keys), pages[..read])
    {
      match ListPrefix(tenant, resource)
      case NoTenant =>
        refused, read, removed := true, 0, {};
      case Ok(prefix) =>
        refused := false;
        read, removed := CacheDel(prefix, pages);
    }
  }

  /** The key is there at the start and no other client touches it while the scan runs. */
  ghost predicate Undisturbed(keys: set<string>, pages: seq<Page>, k: string) {
    k in keys && forall p :: p in pages && p.Page? ==> k !in p.written && k !in p.deleted
  }

  /** What a cursor scan guarantees: a complete one returns every matching key that is there throughout. */
  ghost predicate ScanGuarantee(keys: set<string>, pattern: string, pages: seq<Page>) {
    pages != [] && pages[|pages| - 1].Page? && pages[|pages| - 1].last ==>
      forall k :: Undisturbed(keys, pages, k) && Glob(pattern, k) ==> k in Returned(pages)
  }

  lemma {:induction false} ReturnedFromPages(pages: seq<Page>, k: string)
    requires k in Returned(pages)
    ensures exists p :: p in pages && p.Page? && k in p.keys
  {
    var init, last := pages[..|pages| - 1], pages[|pages| - 1];
    if !(last.Page? && k in last.keys) {
      ReturnedFromPages(init, k);
    }
  }

  /** An undisturbed key is there at the end if and only if no page returned it. */
  lemma {:induction false} UndisturbedAtEnd(keys: set<string>, pages: seq<Page>, k: string)
    requires Undisturbed(keys, pages, k)
    ensures k in Deleted(keys, pages) <==> k !in Returned(pages)
  {
    if pages != [] {
      var init, last := pages[..|pages| - 1], pages[|pages| - 1];
      assert last in pages && forall p :: p in init ==> p in pages;
      UndisturbedAtEnd(keys, init, k);
    }
  }

  lemma SameStart(start: string, a: string, b: string)
    ensures start + a <= start + b <==> a <= b
  {
    assert (start + a)[|start|..] == a && (start + b)[|start|..] == b;
    if a <= b {
      assert b == a + b[|a|..] && start + b == start + a + b[|a|..];
    }
    if start + a <= start + b {
      assert (start + b)[..|start + a|][|start|..] == a;
    }
  }

  /** The pattern of a list's invalidation matches exactly that list's keys. */
  lemma PatternMeetsOwnKeys(t: string, r: string, t2: string, r2: string, variant: string)
    requires PlainName(t) && PlainName(r) && PlainName(t2) && PlainName(r2) && t != "" && t2 != ""
    ensures Glob(CACHE_PREFIX + ListPrefix(Some(t), r).key + "*", CACHE_PREFIX + ListKey(Some(t2), r2, variant).key)
            <==> t == t2 && r == r2
  {
    var prefix, key := ListPrefix(Some(t), r).key, ListKey(Some(t2), r2, variant).key;
    PrefixMeetsOwnKeys(t, r, t2, r2, variant);
    SameStart(CACHE_PREFIX, prefix, key);
    assert forall c :: c in CACHE_PREFIX + prefix ==> c in CACHE_PREFIX || c in t || c in r || c == ':';
    PrefixPattern(CACHE_PREFIX + prefix, CACHE_PREFIX + key);
  }

  /** A complete invalidation clears exactly one list: every key of that tenant and resource that is there
      throughout is gone, however often the scan returned it, and no key of any other list was removed. */
  lemma InvalidationClearsOneList(keys: set<string>, t: string, r: string, pages: seq<Page>,
                                  t2: string, r2: string, variant: string)
    requires PlainName(t) && PlainName(r) && PlainName(t2) && PlainName(r2) && t != "" && t2 != ""
    requires var pattern := CACHE_PREFIX + ListPrefix(Some(t), r).key + "*";
             && ScanGuarantee(keys, pattern, pages)
             && forall p :: p in pages && p.Page? ==> forall k :: k in p.keys ==> Glob(pattern, k)
    requires pages != [] && pages[|pages| - 1].Page? && pages[|pages| - 1].last
    ensures var k := CACHE_PREFIX + ListKey(Some(t2), r2, variant).key;
            && (t == t2 && r == r2 && Undisturbed(keys, pages, k) ==> k !in Deleted(keys, pages))
            && (!(t == t2 && r == r2) ==> k !in Returned(pages))
            && (!(t == t2 && r == r2) && Undisturbed(keys, pages, k) ==> k in Deleted(keys, pages))
  {
    var k := CACHE_PREFIX + ListKey(Some(t2), r2, variant).key;
    PatternMeetsOwnKeys(t, r, t2, r2, variant);
    hide Glob, ListKey, ListPrefix, PlainName;
    if k in Returned(pages) {
      ReturnedFromPages(pages, k);
    }
    if Undisturbed(keys, pages, k) {
      UndisturbedAtEnd(keys, pages, k);
    }
  }
}
