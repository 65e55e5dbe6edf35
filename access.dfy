/**
 * Badge identifiers and the allow-list: which received characters make up an
 * identifier, how many received characters one identifier consumes, the
 * NULL-terminated table of authorised identifiers and its lookup.
 */
module Access {
  import opened Bytes

  /** The number of characters of an identifier (rfid.c:200). */
  const TagLength: nat := 10

  /** The characters the collection loop keeps: '0'..'9' and 'A'..'F' (rfid.c:202-203). */
  predicate IsTagChar(c: CChar)
  {
    ('0' <= c <= '9') || ('A' <= c <= 'F')
  }

  /** The kept characters are exactly the sixteen upper-case hexadecimal digits. */
  lemma TagAlphabet(c: CChar)
    ensures IsTagChar(c) <==> c in "0123456789ABCDEF"
  {
  }

  /** The characters of `s` the collection loop keeps, in arrival order. */
  function Accepted(s: seq<CChar>): (r: seq<CChar>)
    ensures |r| <= |s|
    ensures forall i :: 0 <= i < |r| ==> IsTagChar(r[i])
  {
    if s == [] then []
    else (if IsTagChar(s[0]) then [s[0]] else []) + Accepted(s[1..])
  }

  lemma {:induction false} AcceptedAppend(a: seq<CChar>, b: seq<CChar>)
    ensures Accepted(a + b) == Accepted(a) + Accepted(b)
    decreases |a|
  {
    if a == [] {
      assert a + b == b;
    } else {
      var head := if IsTagChar(a[0]) then [a[0]] else [];
      assert (a + b)[0] == a[0];
      assert (a + b)[1..] == a[1..] + b;
      calc {
        Accepted(a + b);
        head + Accepted(a[1..] + b);
        { AcceptedAppend(a[1..], b); }
        head + (Accepted(a[1..]) + Accepted(b));
        (head + Accepted(a[1..])) + Accepted(b);
      }
    }
  }

  /**
   * How many received characters the collection loop reads to keep `m` of
   * them: it stops right after the m-th accepted character.
   */
  function Consumed(s: seq<CChar>, m: nat): (k: nat)
    requires m <= |Accepted(s)|
    ensures k <= |s|
    ensures |Accepted(s[..k])| == m
    ensures m > 0 ==> 0 < k && IsTagChar(s[k - 1])
    decreases |s|
  {
    if m == 0 then 0
    else
      var head := if IsTagChar(s[0]) then [s[0]] else [];
      assert Accepted(s) == head + Accepted(s[1..]);
      var k' := Consumed(s[1..], m - |head|);
      assert s[..k' + 1] == [s[0]] + s[1..][..k'];
      assert Accepted(s[..k' + 1]) == head + Accepted(s[1..][..k']) by {
        AcceptedAppend([s[0]], s[1..][..k']);
        assert Accepted([s[0]]) == head;
      }
      k' + 1
  }

  /**
   * The characters kept while reading `Consumed(s, m)` characters are exactly
   * the first `m` accepted ones, and the rest of the stream holds the others.
   */
  lemma ConsumedSplit(s: seq<CChar>, m: nat)
    requires m <= |Accepted(s)|
    ensures Accepted(s[..Consumed(s, m)]) == Accepted(s)[..m]
    ensures Accepted(s[Consumed(s, m)..]) == Accepted(s)[m..]
  {
    var k := Consumed(s, m);
    assert s == s[..k] + s[k..];
    AcceptedAppend(s[..k], s[k..]);
  }

  /**
   * Reading the character at position `k` moves it from the unread to the
   * read part of the stream: it is kept exactly when it is in the alphabet.
   */
  lemma ReadStep(s: seq<CChar>, k: nat)
    requires k < |s|
    ensures Accepted(s[..k + 1]) == Accepted(s[..k]) + (if IsTagChar(s[k]) then [s[k]] else [])
    ensures Accepted(s[k..]) == (if IsTagChar(s[k]) then [s[k]] else []) + Accepted(s[k + 1..])
  {
    assert s[..k + 1] == s[..k] + [s[k]];
    AcceptedAppend(s[..k], [s[k]]);
    assert [s[k]][1..] == [];
    assert s[k..][1..] == s[k + 1..];
    assert s[k..][0] == s[k];
  }

  /**
   * `Consumed(s, m)` is the only read count that keeps exactly `m` characters
   * and ends on a kept one: the loop can stop nowhere else.
   */
  lemma ConsumedUnique(s: seq<CChar>, m: nat, k: nat)
    requires 0 < m && k <= |s| && |Accepted(s[..k])| == m
    requires 0 < k && IsTagChar(s[k - 1])
    ensures m <= |Accepted(s)| && k == Consumed(s, m)
  {
    assert m <= |Accepted(s)| by {
      assert s == s[..k] + s[k..];
      AcceptedAppend(s[..k], s[k..]);
    }
    var c := Consumed(s, m);
    if c < k {
      KeptGrows(s, c, k);
    } else if k < c {
      KeptGrows(s, k, c);
    }
  }

  /** Reading on up to a kept character keeps strictly more. */
  lemma KeptGrows(s: seq<CChar>, a: nat, b: nat)
    requires a < b <= |s| && IsTagChar(s[b - 1])
    ensures |Accepted(s[..a])| < |Accepted(s[..b])|
  {
    assert s[..b] == s[..a] + s[a..b];
    AcceptedAppend(s[..a], s[a..b]);
    assert s[a..b] == s[a..b - 1] + [s[b - 1]];
    AcceptedAppend(s[a..b - 1], [s[b - 1]]);
    assert Accepted([s[b - 1]]) == [s[b - 1]];
  }

  /**
   * A loop that has read `k` characters of `s`, kept `TagLength` of them and
   * stopped on a kept one has read exactly `Consumed(s, TagLength)` and kept
   * the next identifier.
   */
  lemma CollectedTag(s: seq<CChar>, k: nat)
    requires k <= |s| && |Accepted(s[..k])| == TagLength
    requires 0 < k && IsTagChar(s[k - 1])
    ensures TagLength <= |Accepted(s)| && k == Consumed(s, TagLength)
    ensures Accepted(s[..k]) == Accepted(s)[..TagLength]
  {
    ConsumedUnique(s, TagLength, k);
    ConsumedSplit(s, TagLength);
  }

  /** The identifier the collection loop assembles from stream `s`. */
  function NextTag(s: seq<CChar>): (id: seq<CChar>)
    requires TagLength <= |Accepted(s)|
    ensures |id| == TagLength
    ensures forall i :: 0 <= i < |id| ==> IsTagChar(id[i])
  {
    Accepted(s)[..TagLength]
  }

  /** An entry of `authorized_tags`: a string or the NULL terminator. */
  datatype Entry = Tag(id: seq<CChar>) | Null

  /** The compiled-in allow-list (rfid.c:54-59). */
  const AuthorizedTags: seq<Entry> :=
    [Tag("1A2B3C4D5E"), Tag("5F6G7H8I9J"), Tag("A1B2C3D4E5"), Null]

  predicate Terminated(table: seq<Entry>)
  {
    Null in table
  }

  /** The index of the first NULL of a terminated table. */
  function Sentinel(table: seq<Entry>): (k: nat)
    requires Terminated(table)
    ensures k < |table| && table[k] == Null
    ensures forall j :: 0 <= j < k ==> table[j].Tag?
  {
    if table[0] == Null then 0
    else
      assert Terminated(table[1..]) by {
        var k :| 0 <= k < |table| && table[k] == Null;
        assert table[1..][k - 1] == Null;
      }
      1 + Sentinel(table[1..])
  }

  /** `id` equals, character for character and in length, an entry before the NULL. */
  predicate Authorized(table: seq<Entry>, id: seq<CChar>)
    requires Terminated(table)
  {
    exists j :: 0 <= j < Sentinel(table) && table[j] == Tag(id)
  }

  /**
   * The lookup of rfid.c:211-225: scan the table until its NULL, comparing
   * each entry with `strcmp`, and stop at the first match.
   */
  method FindTag(table: seq<Entry>, id: seq<CChar>) returns (found: bool)
    requires Terminated(table)
    ensures found <==> Authorized(table, id)
  {
    var i := 0;
    while table[i] != Null
      invariant 0 <= i <= Sentinel(table)
      invariant forall j :: 0 <= j < i ==> table[j] != Tag(id)
      decreases Sentinel(table) - i
    {
      if table[i].id == id {
        return true;
      }
      i := i + 1;
    }
    return false;
  }

  lemma AllowListShape()
    ensures Terminated(AuthorizedTags) && Sentinel(AuthorizedTags) == 3
  {
    assert AuthorizedTags[3] == Null;
  }

  /** Membership in the allow-list is equality with one of its three strings. */
  lemma AuthorizedIff(id: seq<CChar>)
    ensures Terminated(AuthorizedTags)
    ensures Authorized(AuthorizedTags, id)
        <==> id == "1A2B3C4D5E" || id == "5F6G7H8I9J" || id == "A1B2C3D4E5"
  {
    AllowListShape();
    if id == "1A2B3C4D5E" {
      assert AuthorizedTags[0] == Tag(id);
    } else if id == "5F6G7H8I9J" {
      assert AuthorizedTags[1] == Tag(id);
    } else if id == "A1B2C3D4E5" {
      assert AuthorizedTags[2] == Tag(id);
    }
  }

  /**
   * No stream ever assembles the entry "5F6G7H8I9J": its characters G, H, I
   * and J are discarded by the collection loop.
   */
  lemma UnreachableEntry(s: seq<CChar>)
    requires TagLength <= |Accepted(s)|
    ensures NextTag(s) != "5F6G7H8I9J"
  {
    var id := NextTag(s);
    assert IsTagChar(id[3]);
    assert !IsTagChar("5F6G7H8I9J"[3]);
  }

  /**
   * An assembled identifier is authorised exactly when it is "1A2B3C4D5E" or
   * "A1B2C3D4E5", the only entries the collection loop can produce.
   */
  lemma AssembledAuthorized(s: seq<CChar>)
    requires TagLength <= |Accepted(s)|
    ensures Terminated(AuthorizedTags)
    ensures Authorized(AuthorizedTags, NextTag(s))
        <==> NextTag(s) == "1A2B3C4D5E" || NextTag(s) == "A1B2C3D4E5"
  {
    AuthorizedIff(NextTag(s));
    UnreachableEntry(s);
  }

  /**
   * Noise cannot authorise: changing one character of an allow-listed
   * identifier always yields an identifier that is refused, because any two
   * entries differ in both of their first two characters.
   */
  lemma SingleErrorRefused(j: nat, pos: nat, c: CChar)
    requires j < 3 && pos < |AuthorizedTags[j].id|
    requires c != AuthorizedTags[j].id[pos]
    ensures Terminated(AuthorizedTags)
    ensures !Authorized(AuthorizedTags, AuthorizedTags[j].id[pos := c])
  {
    var e := AuthorizedTags[j].id;
    var noisy := e[pos := c];
    AuthorizedIff(noisy);
    assert noisy != e by {
      assert noisy[pos] != e[pos];
    }
    var other := if pos == 0 then 1 else 0;
    assert noisy[other] == e[other];
    assert j == 0 || j == 1 || j == 2;
  }
}
