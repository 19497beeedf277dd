/** What an actor can subscribe to, and the keys and topic names the rest of the system knows it by. */
module Channels {

  datatype Channel = Quote(id: string) | Trade(id: string) | Bar(id: string, spec: string) | Book(id: string)

  /** The engine and the data client know a bar type by one string. */
  datatype Key = QuoteKey(id: string) | TradeKey(id: string) | BarKey(text: string) | BookKey(id: string)

  function KeyOf(c: Channel): Key {
    match c
    case Quote(id) => QuoteKey(id)
    case Trade(id) => TradeKey(id)
    case Bar(id, spec) => BarKey(id + "|" + spec)
    case Book(id) => BookKey(id)
  }

  function Topic(k: Key): string {
    match k
    case QuoteKey(id) => "MarketData.Quote." + id
    case TradeKey(id) => "MarketData.Trade." + id
    case BarKey(text) => "MarketData.Bar." + text
    case BookKey(id) => "MarketData.Book." + id
  }

  function TopicOf(c: Channel): string {
    Topic(KeyOf(c))
  }

  /** An actor refuses empty names and depths that are not positive. */
  predicate Admissible(c: Channel, depth: int) {
    c.id != "" && (c.Bar? ==> c.spec != "") && (c.Book? ==> depth > 0)
  }

  /** What `unsubscribe_*` checks: it has no depth to look at. */
  predicate Named(c: Channel) {
    c.id != "" && (c.Bar? ==> c.spec != "")
  }

  /** Two keys share a topic only if they are the same key. */
  lemma TopicsAreDistinct(k: Key, l: Key)
    ensures Topic(k) == Topic(l) <==> k == l
  {
    if Topic(k) == Topic(l) {
      var t := Topic(k);
      assert (t[11] == 'Q' <==> k.QuoteKey?) && (t[11] == 'T' <==> k.TradeKey?);
      assert (t[11] == 'Q' <==> l.QuoteKey?) && (t[11] == 'T' <==> l.TradeKey?);
      assert (t[11] == 'B' && t[12] == 'a' <==> k.BarKey?) && (t[11] == 'B' && t[12] == 'a' <==> l.BarKey?);
      var prefix := match k case QuoteKey(_) => "MarketData.Quote." case TradeKey(_) => "MarketData.Trade."
                            case BarKey(_) => "MarketData.Bar." case BookKey(_) => "MarketData.Book.";
      Suffix(prefix, if k.BarKey? then k.text else k.id, t);
      Suffix(prefix, if l.BarKey? then l.text else l.id, t);
    }
  }

  lemma Suffix(prefix: string, name: string, t: string)
    requires t == prefix + name
    ensures name == t[|prefix|..]
  {
  }

  lemma TopicsAreNamed(c: Channel)
    ensures TopicOf(c) != ""
  {
  }

  /** Bar types keep their own key as long as instrument names have no bar in them. */
  lemma BarKeysAreDistinct(c: Channel, d: Channel)
    requires c.Bar? && d.Bar? && '|' !in c.id && '|' !in d.id
    ensures KeyOf(c) == KeyOf(d) <==> c == d
  {
    if KeyOf(c) == KeyOf(d) {
      var t := c.id + "|" + c.spec;
      assert t == d.id + "|" + d.spec;
      assert t[|c.id|] == '|' && t[|d.id|] == '|';
      assert forall i :: 0 <= i < |c.id| ==> t[i] in c.id;
      assert forall i :: 0 <= i < |d.id| ==> t[i] in d.id;
      assert |c.id| == |d.id|;
      assert c.id == t[..|c.id|] && d.id == t[..|d.id|];
      Suffix(c.id + "|", c.spec, t);
      Suffix(d.id + "|", d.spec, t);
    }
  }

  /** A bar type shares its key with another one exactly when there is a bar in its name or in its specification. */
  lemma BarKeysCollideIff(id: string, spec: string)
    ensures (exists d: Channel :: d.Bar? && d != Bar(id, spec) && KeyOf(d) == KeyOf(Bar(id, spec))) <==>
      '|' in id || '|' in spec
  {
    if i :| 0 <= i < |id| && id[i] == '|' {
      SplitAt(id, i);
      var d := Bar(id[..i], id[i + 1..] + "|" + spec);
      assert d.id + "|" + d.spec == (id[..i] + "|" + id[i + 1..]) + "|" + spec;
      assert d != Bar(id, spec) && KeyOf(d) == KeyOf(Bar(id, spec));
    } else if i :| 0 <= i < |spec| && spec[i] == '|' {
      SplitAt(spec, i);
      var d := Bar(id + "|" + spec[..i], spec[i + 1..]);
      assert d.id + "|" + d.spec == id + "|" + (spec[..i] + "|" + spec[i + 1..]);
      assert d != Bar(id, spec) && KeyOf(d) == KeyOf(Bar(id, spec));
    } else {
      forall d: Channel | d.Bar? && KeyOf(d) == KeyOf(Bar(id, spec)) ensures d == Bar(id, spec) {
        OnlyBar(id, spec, d);
      }
    }
  }

  lemma SplitAt(s: string, i: int)
    requires 0 <= i < |s| && s[i] == '|'
    ensures s == s[..i] + "|" + s[i + 1..]
  {
  }

  /** The key of a bar type without bars of its own can be taken apart in one way only. */
  lemma OnlyBar(id: string, spec: string, d: Channel)
    requires d.Bar? && '|' !in id && '|' !in spec && KeyOf(d) == KeyOf(Bar(id, spec))
    ensures d == Bar(id, spec)
  {
    var t := id + "|" + spec;
    assert t == d.id + "|" + d.spec;
    assert t[|d.id|] == '|' && t[|id|] == '|';
    assert forall i :: 0 <= i < |id| ==> t[i] == id[i];
    assert forall i :: |id| < i < |t| ==> t[i] == spec[i - |id| - 1];
    assert |d.id| == |id|;
    assert d.id == t[..|id|] && id == t[..|id|];
    Suffix(id + "|", spec, t);
    Suffix(d.id + "|", d.spec, t);
  }
}
