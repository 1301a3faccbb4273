/**
 * The payload split of `fileToBase64` (App.tsx): the browser's FileReader turns a
 * file into a data URL, and the app keeps `result.split(',')[1]`, the base64 text
 * after the URL's header.
 */
module Codec {

  /** JavaScript's `s.split(sep)` for a one-character separator. */
  function Split(s: string, sep: char): (parts: seq<string>)
    ensures |parts| >= 1
    ensures |parts| == 1 <==> sep !in s
    decreases |s|
  {
    if |s| == 0 then [""]
    else
      var rest := Split(s[1..], sep);
      if s[0] == sep then [""] + rest
      else
        assert sep in s <==> sep in s[1..] by {
          if sep in s {
            var k :| 0 <= k < |s| && s[k] == sep;
            assert s[1..][k - 1] == sep;
          }
        }
        [[s[0]] + rest[0]] + rest[1..]
  }

  /** JavaScript's `parts.join(sep)`; `JoinSplit` and `SplitJoin` show it and `Split` undo each other. */
  function Join(parts: seq<string>, sep: char): string
    requires |parts| >= 1
    decreases |parts|
  {
    if |parts| == 1 then parts[0] else parts[0] + [sep] + Join(parts[1..], sep)
  }

  /** The index of the first occurrence of `c` in `s`. */
  function IndexOf(s: string, c: char): (i: nat)
    requires c in s
    ensures i < |s| && s[i] == c && c !in s[..i]
  {
    if s[0] == c then 0
    else
      assert c in s[1..] by {
        var k :| 0 <= k < |s| && s[k] == c;
        assert s[1..][k - 1] == c;
      }
      var j := IndexOf(s[1..], c);
      assert s[..j + 1] == [s[0]] + s[1..][..j];
      j + 1
  }

  /** Splitting and joining again gives back the string. */
  lemma {:induction false} JoinSplit(s: string, sep: char)
    ensures Join(Split(s, sep), sep) == s
    decreases |s|
  {
    if |s| > 0 {
      var rest := Split(s[1..], sep);
      JoinSplit(s[1..], sep);
      if s[0] == sep {
        assert Split(s, sep) == [""] + rest;
        assert Split(s, sep)[1..] == rest;
        assert s == [sep] + s[1..];
      } else {
        var parts := Split(s, sep);
        assert parts == [[s[0]] + rest[0]] + rest[1..];
        if |rest| == 1 {
          assert s == [s[0]] + s[1..];
        } else {
          assert parts[1..] == rest[1..];
          assert s == [s[0]] + s[1..];
        }
      }
    }
  }

  /** No segment of a split contains the separator. */
  lemma {:induction false} SegmentsExcludeSeparator(s: string, sep: char)
    ensures forall k :: 0 <= k < |Split(s, sep)| ==> sep !in Split(s, sep)[k]
    decreases |s|
  {
    if |s| > 0 {
      SegmentsExcludeSeparator(s[1..], sep);
    }
  }

  /**
   * The first segment is the longest separator-free prefix, and the other
   * segments are the split of what follows the first separator.
   */
  lemma {:induction false} FirstSegment(s: string, sep: char)
    ensures Split(s, sep)[0] <= s
    ensures sep !in Split(s, sep)[0]
    ensures |Split(s, sep)[0]| < |s| ==>
              s[|Split(s, sep)[0]|] == sep
              && Split(s, sep)[1..] == Split(s[|Split(s, sep)[0]| + 1..], sep)
    decreases |s|
  {
    if |s| > 0 {
      var rest := Split(s[1..], sep);
      FirstSegment(s[1..], sep);
      if s[0] == sep {
        assert Split(s, sep) == [""] + rest;
      } else {
        var h := rest[0];
        assert Split(s, sep) == [[s[0]] + h] + rest[1..];
        if |h| < |s[1..]| {
          assert s[|h| + 2..] == s[1..][|h| + 1..];
        }
      }
    }
  }

  /** A string without the separator splits into itself alone. */
  lemma {:induction false} SplitWithoutSeparator(s: string, sep: char)
    requires sep !in s
    ensures Split(s, sep) == [s]
  {
    FirstSegment(s, sep);
    var h := Split(s, sep)[0];
    assert forall k :: 0 <= k < |s| ==> s[k] != sep;
    assert |h| == |s|;
    assert h == s;
    assert |Split(s, sep)| == 1;
  }

  /** Splitting at a first separator gives the separator-free text before it, then the split of the rest. */
  lemma SplitAtFirstSeparator(head: string, sep: char, tail: string)
    requires sep !in head
    ensures Split(head + [sep] + tail, sep) == [head] + Split(tail, sep)
  {
    var s := head + [sep] + tail;
    FirstSegment(s, sep);
    var h := Split(s, sep)[0];
    assert s[..|head|] == head;
    assert s[|head|] == sep;
    // both are separator-free prefixes of s that stop at a separator or the end
    assert forall k :: 0 <= k < |h| ==> s[k] == h[k] != sep;
    assert forall k :: 0 <= k < |head| ==> s[k] == head[k] != sep;
    assert |h| == |head|;
    assert h == head;
    assert s[|head| + 1..] == tail;
  }

  /** A header, one separator, then a separator-free tail split into exactly those two. */
  lemma SplitHeaderPayload(header: string, sep: char, payload: string)
    requires sep !in header && sep !in payload
    ensures Split(header + [sep] + payload, sep) == [header, payload]
  {
    SplitAtFirstSeparator(header, sep, payload);
    SplitWithoutSeparator(payload, sep);
  }

  /** Joining separator-free segments and splitting again gives back the segments. */
  lemma {:induction false} SplitJoin(parts: seq<string>, sep: char)
    requires |parts| >= 1
    requires forall k :: 0 <= k < |parts| ==> sep !in parts[k]
    ensures Split(Join(parts, sep), sep) == parts
    decreases |parts|
  {
    if |parts| == 1 {
      SplitWithoutSeparator(parts[0], sep);
    } else {
      assert forall k :: 0 <= k < |parts[1..]| ==> parts[1..][k] == parts[k + 1];
      SplitJoin(parts[1..], sep);
      SplitAtFirstSeparator(parts[0], sep, Join(parts[1..], sep));
      assert parts == [parts[0]] + parts[1..];
    }
  }

  /**
   * What the model assumes `readAsDataURL` produces: `data:[<type>][;base64],<data>`,
   * so a string holding a comma. A bare `data:` (without a comma) is not covered.
   */
  type DataUrl = s: string | ',' in s witness ","

  /**
   * `fileToBase64`'s result: the second element of `split(',')`, which is the
   * comma-free run of text right after the first comma.
   */
  function Payload(url: DataUrl): (p: string)
    ensures ',' !in p
    ensures var i := IndexOf(url, ',');
              p <= url[i + 1..] && (i + 1 + |p| < |url| ==> url[i + 1 + |p|] == ',')
  {
    var i := IndexOf(url, ',');
    FirstSegment(url, ',');
    var h := Split(url, ',')[0];
    assert forall k :: 0 <= k < |h| ==> url[k] == h[k] != ',';
    assert forall k :: 0 <= k < i ==> url[k] == url[..i][k] != ',';
    assert |h| == i;
    FirstSegment(url[i + 1..], ',');
    Split(url, ',')[1]
  }

  /**
   * For a data URL `header + "," + payload` whose header holds no comma (the
   * `data:<type>;base64` form) and whose payload holds none (base64 has no comma),
   * `Payload` returns exactly the payload.
   */
  lemma PayloadOfDataUrl(header: string, payload: string)
    requires ',' !in header && ',' !in payload
    ensures var url := header + "," + payload; ',' in url && Payload(url) == payload
  {
    var url := header + "," + payload;
    assert url[|header|] == ',';
    SplitHeaderPayload(header, ',', payload);
  }
}
