/** The length-prefixed join under entry hashes and derived GUIDs. */
module Joining {
  import opened Decimal

  function Joined(parts: seq<bytes>): bytes {
    if parts == [] then [] else Digits(|parts[0]|) + [COLON] + (parts[0] + Joined(parts[1..]))
  }

  lemma {:induction false} JoinedSnoc(parts: seq<bytes>, p: bytes)
    ensures Joined(parts + [p]) == Joined(parts) + (Digits(|p|) + [COLON] + p)
  {
    hide Digits;
    if parts == [] {
      assert Joined([p]) == Digits(|p|) + [COLON] + (p + Joined([]));
    } else {
      JoinedSnoc(parts[1..], p);
      assert (parts + [p])[1..] == parts[1..] + [p];
      Regroup(Digits(|parts[0]|) + [COLON], parts[0], Joined(parts[1..]), Digits(|p|) + [COLON] + p);
    }
  }

  lemma Regroup(a: bytes, b: bytes, c: bytes, d: bytes)
    ensures a + (b + (c + d)) == a + (b + c) + d
  {
  }

  /** joinFields, its loop over a builder. */
  method JoinFields(parts: seq<bytes>) returns (b: bytes)
    ensures b == Joined(parts)
  {
    b := [];
    for k := 0 to |parts|
      invariant b == Joined(parts[..k])
    {
      JoinedSnoc(parts[..k], parts[k]);
      assert parts[..k] + [parts[k]] == parts[..k + 1];
      ghost var before := b;
      b := b + FormatInt(|parts[k]|);
      b := b + [COLON];
      b := b + parts[k];
      assert b == before + (Digits(|parts[k]|) + [COLON] + parts[k]);
    }
    assert parts[..|parts|] == parts;
  }

  /** Uniquely decodable: lists of any length of any bytes join to the same bytes only
      if they are the same list. */
  lemma {:induction false} JoinedInjective(a: seq<bytes>, b: seq<bytes>)
    requires Joined(a) == Joined(b)
    ensures a == b
  {
    if a != [] && b != [] {
      NumeralThenColon(|a[0]|, |b[0]|, a[0] + Joined(a[1..]), b[0] + Joined(b[1..]));
      assert a[0] == (a[0] + Joined(a[1..]))[..|a[0]|] == b[0];
      assert Joined(a[1..]) == (a[0] + Joined(a[1..]))[|a[0]|..] == Joined(b[1..]);
      JoinedInjective(a[1..], b[1..]);
      assert a == [a[0]] + a[1..] && b == [b[0]] + b[1..];
    }
  }

  /** The bytes that EntryHash hashes. */
  function EntryKey(title: bytes, content: bytes, summary: bytes): bytes {
    Joined([title, content, summary])
  }

  /** The bytes hashed for an item without a GUID: its link and title, and its index
      in the feed only when both are empty. */
  function GuidKey(link: bytes, title: bytes, index: nat): bytes {
    Joined([link, title] + if link == [] && title == [] then [FormatInt(index)] else [])
  }

  lemma EntryKeyInjective(t: bytes, c: bytes, s: bytes, t': bytes, c': bytes, s': bytes)
    requires EntryKey(t, c, s) == EntryKey(t', c', s')
    ensures t == t' && c == c' && s == s'
  {
    JoinedInjective([t, c, s], [t', c', s']);
    assert [t, c, s][0] == t && [t, c, s][1] == c && [t, c, s][2] == s;
    assert [t', c', s'][0] == t' && [t', c', s'][1] == c' && [t', c', s'][2] == s';
  }

  /** Items without a GUID share a key exactly when link and title are equal and, for
      items with neither, the index is too; so a named item keeps its key when items
      are prepended to the feed. */
  lemma GuidKeyIff(l: bytes, t: bytes, i: nat, l': bytes, t': bytes, i': nat)
    ensures GuidKey(l, t, i) == GuidKey(l', t', i') <==> l == l' && t == t' && (l == [] && t == [] ==> i == i')
  {
    if GuidKey(l, t, i) == GuidKey(l', t', i') {
      var a := [l, t] + if l == [] && t == [] then [FormatInt(i)] else [];
      var b := [l', t'] + if l' == [] && t' == [] then [FormatInt(i')] else [];
      JoinedInjective(a, b);
      assert a[0] == l && a[1] == t && b[0] == l' && b[1] == t';
      if l == [] && t == [] {
        assert a[2] == Digits(i) && b[2] == Digits(i');
        ValueOfDigits(i);
        ValueOfDigits(i');
      }
    }
  }
}
