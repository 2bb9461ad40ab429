/**
 * The local-storage key namespace the extension writes to. Every resource is cached under a
 * fixed prefix followed by the database id; the ledger has a key of its own.
 */
module Storage {

  const RecentlyOpenedKey := "RECENTLY_OPENED_PAGES"
  const PagesPrefix := "PAGES_DATABASE_"
  const PropertiesPrefix := "PROPERTIES_DATABASE_"
  const ViewPrefix := "VIEW_DATABASE_"

  function PagesKey(databaseId: string): string {
    PagesPrefix + databaseId
  }

  function PropertiesKey(databaseId: string): string {
    PropertiesPrefix + databaseId
  }

  function ViewKey(databaseId: string): string {
    ViewPrefix + databaseId
  }

  /** A prefixed key determines the id it was built from. */
  lemma PrefixedKeyInjective(prefix: string, a: string, b: string)
    requires prefix + a == prefix + b
    ensures a == b
  {
    assert a == (prefix + a)[|prefix|..];
    assert b == (prefix + b)[|prefix|..];
  }

  /**
   * Two different resources never share a storage slot: keys of different kinds differ in
   * their first two characters, and keys of one kind differ whenever the database ids do.
   */
  lemma KeysNeverCollide(a: string, b: string)
    ensures PagesKey(a) != PropertiesKey(b)
    ensures PagesKey(a) != ViewKey(b) && PropertiesKey(a) != ViewKey(b)
    ensures PagesKey(a) != RecentlyOpenedKey && PropertiesKey(a) != RecentlyOpenedKey && ViewKey(a) != RecentlyOpenedKey
    ensures PagesKey(a) == PagesKey(b) <==> a == b
    ensures PropertiesKey(a) == PropertiesKey(b) <==> a == b
    ensures ViewKey(a) == ViewKey(b) <==> a == b
  {
    assert PagesKey(a)[1] == 'A' && PropertiesKey(b)[1] == 'R';
    assert PagesKey(a)[0] == 'P' && PropertiesKey(a)[0] == 'P' && ViewKey(b)[0] == 'V';
    assert RecentlyOpenedKey[0] == 'R' && ViewKey(a)[0] == 'V';
    if PagesKey(a) == PagesKey(b) { PrefixedKeyInjective(PagesPrefix, a, b); }
    if PropertiesKey(a) == PropertiesKey(b) { PrefixedKeyInjective(PropertiesPrefix, a, b); }
    if ViewKey(a) == ViewKey(b) { PrefixedKeyInjective(ViewPrefix, a, b); }
  }
}
