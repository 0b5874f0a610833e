/** Stream names `exchange.SYMBOL.book`, split as in src/subscriber_protocol.hpp. */
module StreamName {
  import opened Wrappers

  datatype Stream = Stream(exchange: string, symbol: string)

  const SUFFIX := "book"

  /** The first dot at or after `from`, or the length of the string. */
  function FindDot(s: string, from: nat): (i: nat)
    requires from <= |s|
    ensures from <= i <= |s| && (i < |s| ==> s[i] == '.') && forall j :: from <= j < i ==> s[j] != '.'
    decreases |s| - from
  {
    if from == |s| || s[from] == '.' then from else FindDot(s, from + 1)
  }

  function ParseStream(s: string): Option<Stream> {
    var dot1 := FindDot(s, 0);
    if dot1 == |s| || dot1 == 0 then None
    else
      var dot2 := FindDot(s, dot1 + 1);
      if dot2 == |s| || dot2 == dot1 + 1 then None
      else if s[dot2 + 1..] != SUFFIX then None
      else Some(Stream(s[..dot1], s[dot1 + 1..dot2]))
  }

  predicate NoDot(s: string) { forall i :: 0 <= i < |s| ==> s[i] != '.' }

  function Text(st: Stream): string { st.exchange + "." + st.symbol + "." + SUFFIX }

  /** The server's key of a stream. */
  function Key(st: Stream): string { st.exchange + "." + st.symbol }

  predicate WellFormed(st: Stream) {
    st.exchange != "" && st.symbol != "" && NoDot(st.exchange) && NoDot(st.symbol)
  }

  lemma TextParses(st: Stream)
    requires WellFormed(st)
    ensures ParseStream(Text(st)) == Some(st)
  {
    var s, a, b := Text(st), |st.exchange|, |st.exchange| + 1 + |st.symbol|;
    assert s[..a] == st.exchange && s[a] == '.' && s[a + 1..b] == st.symbol && s[b] == '.';
    assert forall j :: 0 <= j < a ==> s[j] == st.exchange[j];
    assert forall j :: a < j < b ==> s[j] == st.symbol[j - a - 1];
    assert FindDot(s, 0) == a && FindDot(s, a + 1) == b;
    assert s[b + 1..] == SUFFIX;
  }

  /** Exactly the texts of well-formed streams are accepted, each as its own stream. */
  lemma ParseInvertsText(s: string, st: Stream)
    ensures ParseStream(s) == Some(st) <==> WellFormed(st) && s == Text(st)
  {
    if WellFormed(st) && s == Text(st) {
      TextParses(st);
    }
    if ParseStream(s) == Some(st) {
      var a, b := |st.exchange|, |st.exchange| + 1 + |st.symbol|;
      assert s == s[..a] + "." + s[a + 1..b] + "." + s[b + 1..];
    }
  }

  /** An accepted text is its key followed by ".book"; the key is the exchange, which has no dot, and
      the symbol, with a dot between. */
  lemma AcceptedIsKeyAndSuffix(s: string)
    requires ParseStream(s).Some?
    ensures var st := ParseStream(s).value;
            s == Key(st) + ".book" && Key(st) == st.exchange + "." + st.symbol && NoDot(st.exchange)
  {
    ParseInvertsText(s, ParseStream(s).value);
  }

  /** Different streams have different keys, so they share neither counter nor subscribers. */
  lemma KeysDiffer(x: Stream, y: Stream)
    requires WellFormed(x) && WellFormed(y) && Key(x) == Key(y)
    ensures x == y
  {
    assert Text(x) == Key(x) + "." + SUFFIX && Text(y) == Key(y) + "." + SUFFIX;
    ParseInvertsText(Text(x), x);
    ParseInvertsText(Text(x), y);
  }
}
