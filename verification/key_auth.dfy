/**
 * The public-key callback of the SSH server: a first-match scan of the
 * authorized-keys file.
 *
 * The file is given as the results of successive ReadLine calls, or None when
 * it cannot be opened. Parsing a line into a key and comparing two keys are
 * library calls that are not modelled. They are parameters: `parse` yields
 * None for a line that does not parse, and `keysEqual` compares the incoming
 * key with a parsed one.
 */
module KeyAuth {
  import opened Wrappers
  import opened Bytes

  /** One call of ReadLine: a line without its terminator, or an error.
      A line longer than the reader's buffer arrives as several fragments,
      one result each. The sequence ending is io.EOF. */
  datatype LineRead = Line(text: seq<byte>) | LineError

  /** A line grants access: it is non-empty, it parses, and its key equals the
      incoming key. */
  predicate Grants<K>(incoming: K, text: seq<byte>, parse: seq<byte> -> Option<K>, keysEqual: (K, K) -> bool)
  {
    |text| > 0 && parse(text).Some? && keysEqual(incoming, parse(text).value)
  }

  /** The scan reaches line `i`: every read before it returned a line. */
  predicate Reaches(lines: seq<LineRead>, i: nat)
    requires i <= |lines|
  {
    forall j :: 0 <= j < i ==> lines[j].Line?
  }

  /** Some line the scan reaches grants access. */
  predicate SomeLineGrants<K>(lines: seq<LineRead>, incoming: K, parse: seq<byte> -> Option<K>, keysEqual: (K, K) -> bool)
  {
    exists i :: 0 <= i < |lines| && Reaches(lines, i) && lines[i].Line?
                && Grants(incoming, lines[i].text, parse, keysEqual)
  }

  /** The position of the line the scan grants on, if any: the first line it
      reaches that grants access. */
  function FirstGrant<K>(lines: seq<LineRead>, incoming: K, parse: seq<byte> -> Option<K>, keysEqual: (K, K) -> bool): (r: Option<nat>)
    ensures r.Some? ==>
              && r.value < |lines|
              && Reaches(lines, r.value) && lines[r.value].Line?
              && Grants(incoming, lines[r.value].text, parse, keysEqual)
              && forall j :: 0 <= j < r.value ==> !Grants(incoming, lines[j].text, parse, keysEqual)
    ensures r.None? ==> !SomeLineGrants(lines, incoming, parse, keysEqual)
  {
    if |lines| == 0 || lines[0].LineError? then None
    else if Grants(incoming, lines[0].text, parse, keysEqual) then Some(0)
    else
      var rest := FirstGrant(lines[1..], incoming, parse, keysEqual);
      assert forall i :: 1 <= i < |lines| ==> lines[i] == lines[1..][i - 1];
      match rest
      case None => None
      case Some(i) => Some(i + 1)
  }

  /** The callback's decision. */
  function Authorize<K>(file: Option<seq<LineRead>>, incoming: K, parse: seq<byte> -> Option<K>, keysEqual: (K, K) -> bool): (granted: bool)
    ensures file.None? ==> !granted
    ensures file.Some? ==> (granted <==> SomeLineGrants(file.value, incoming, parse, keysEqual))
  {
    match file
    case None => false
    case Some(lines) => FirstGrant(lines, incoming, parse, keysEqual).Some?
  }

  /** The callback written as the loop it is. */
  method CheckKey<K>(file: Option<seq<LineRead>>, incoming: K, parse: seq<byte> -> Option<K>, keysEqual: (K, K) -> bool)
    returns (granted: bool)
    ensures granted <==> file.Some? && SomeLineGrants(file.value, incoming, parse, keysEqual)
  {
    if file.None? {
      return false;
    }
    var lines := file.value;
    var i := 0;
    while i < |lines|
      invariant i <= |lines|
      invariant Reaches(lines, i)
      invariant forall j :: 0 <= j < i ==> !Grants(incoming, lines[j].text, parse, keysEqual)
    {
      if lines[i].LineError? {
        break;
      }
      var text := lines[i].text;
      if |text| > 0 {
        var key := parse(text);
        if key.None? {
          i := i + 1;
          continue;
        }
        if keysEqual(incoming, key.value) {
          return true;
        }
      }
      i := i + 1;
    }
    return false;
  }

  lemma {:induction false} FirstGrantSkips<K>(lines: seq<LineRead>, i: nat, incoming: K, parse: seq<byte> -> Option<K>, keysEqual: (K, K) -> bool)
    requires i < |lines| && lines[i].Line? && !Grants(incoming, lines[i].text, parse, keysEqual)
    ensures FirstGrant(lines[..i] + lines[i + 1..], incoming, parse, keysEqual).Some?
            == FirstGrant(lines, incoming, parse, keysEqual).Some?
    decreases i
  {
    var shorter := lines[..i] + lines[i + 1..];
    if i == 0 {
      assert shorter == lines[1..];
    } else {
      assert shorter[0] == lines[0];
      if lines[0].Line? && !Grants(incoming, lines[0].text, parse, keysEqual) {
        assert shorter[1..] == lines[1..][..i - 1] + lines[1..][i..];
        FirstGrantSkips(lines[1..], i - 1, incoming, parse, keysEqual);
      }
    }
  }

  /** A line that does not grant access, because it is empty, does not parse,
      or holds another key, can be removed without changing the decision. */
  lemma NonGrantingLineIrrelevant<K>(lines: seq<LineRead>, i: nat, incoming: K, parse: seq<byte> -> Option<K>, keysEqual: (K, K) -> bool)
    requires i < |lines| && lines[i].Line? && !Grants(incoming, lines[i].text, parse, keysEqual)
    ensures Authorize(Some(lines[..i] + lines[i + 1..]), incoming, parse, keysEqual)
            == Authorize(Some(lines), incoming, parse, keysEqual)
  {
    FirstGrantSkips(lines, i, incoming, parse, keysEqual);
  }

  /** The scan stops at the first read error: nothing after it, not even a
      matching key, changes the decision, which is the one for the file cut
      short before the error. */
  lemma LinesAfterErrorIgnored<K>(lines: seq<LineRead>, i: nat, incoming: K, parse: seq<byte> -> Option<K>, keysEqual: (K, K) -> bool)
    requires i < |lines| && lines[i].LineError?
    ensures Authorize(Some(lines), incoming, parse, keysEqual)
            == Authorize(Some(lines[..i]), incoming, parse, keysEqual)
  {
  }
}
