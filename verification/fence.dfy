/**
 Clean-up of the text-generation reply before it is parsed as JSON
 (supabase/functions/ocr-extract/index.ts, `generateCVWithGemini`): every
 "```json" marker and then every "```" marker, each with at most one newline
 right after it, is deleted, and the result is trimmed.
 */
module Fence {
  import opened Text

  const JsonMarker: string := "```json"
  const Marker: string := "```"

  /** `replace(/<m>\n?/g, "")` for a marker `m` that starts with a backtick:
      scanning left to right, each occurrence of `m` (and one newline right
      after it, if present) is removed; matches do not overlap. */
  function RemoveMarker(s: string, m: string): (r: string)
    requires |m| > 0
    ensures |r| <= |s|
    decreases |s|
  {
    if StartsWith(s, m) then
      (if |s| > |m| && s[|m|] == '\n' then RemoveMarker(s[|m| + 1..], m) else RemoveMarker(s[|m|..], m))
    else if |s| == 0 then ""
    else [s[0]] + RemoveMarker(s[1..], m)
  }

  /** The reply text as it is handed to `JSON.parse`: no "```" is left in
      it, and it has no whitespace at either end. */
  function StripFences(reply: string): (r: string)
    ensures !Contains(r, Marker)
    ensures |r| > 0 ==> !IsWs(r[0]) && !IsWs(r[|r| - 1])
  {
    var cleaned := RemoveMarker(RemoveMarker(reply, JsonMarker), Marker);
    NoMarkerAfterRemoval(RemoveMarker(reply, JsonMarker));
    TrimKeepsAbsence(cleaned, Marker);
    Trim(cleaned)
  }

  /** A pattern absent from a text is absent from its trimmed form. */
  lemma TrimKeepsAbsence(s: string, p: string)
    requires !Contains(s, p)
    ensures !Contains(Trim(s), p)
  {
    var k :| OccursAt(s, Trim(s), k);
    if Contains(Trim(s), p) {
      ContainsInfix(s, Trim(s), p, k);
    }
  }

  /** One differing character rules out a prefix match. */
  lemma Mismatch(s: string, p: string, k: nat)
    requires k < |p| && k < |s| && s[k] != p[k]
    ensures !StartsWith(s, p)
  {
  }

  /** A character other than a backtick is copied to the output. */
  lemma KeepsPlainHead(t: string, m: string)
    requires |m| > 0 && m[0] == '`'
    requires |t| > 0 && t[0] != '`'
    ensures RemoveMarker(t, m) == [t[0]] + RemoveMarker(t[1..], m)
  {
  }

  /** After "```" markers are removed, no "```" remains: a backtick that
      survives is never followed by two more surviving backticks. */
  lemma {:induction false} NoMarkerAfterRemoval(s: string)
    ensures !Contains(RemoveMarker(s, Marker), Marker)
    decreases |s|
  {
    var r := RemoveMarker(s, Marker);
    if StartsWith(s, Marker) {
      if |s| > 3 && s[3] == '\n' {
        NoMarkerAfterRemoval(s[4..]);
      } else {
        NoMarkerAfterRemoval(s[3..]);
      }
    } else if |s| > 0 {
      var t := s[1..];
      NoMarkerAfterRemoval(t);
      var rt := RemoveMarker(t, Marker);
      assert r == [s[0]] + rt;
      assert r[1..] == rt;
      if s[0] == '`' {
        // `s` does not start with "```", so `t` does not start with "``".
        assert !StartsWith(rt, "``") by {
          if |t| > 0 && t[0] != '`' {
            KeepsPlainHead(t, Marker);
          } else if |t| > 1 {
            assert s[..3] == [s[0], t[0], t[1]];
            assert t[1] != '`';
            assert !StartsWith(t, Marker);
            assert rt == [t[0]] + RemoveMarker(t[1..], Marker);
            KeepsPlainHead(t[1..], Marker);
            assert rt[1] == t[1];
          } else if |t| == 1 {
            assert !StartsWith(t, Marker);
            assert rt == [t[0]] + RemoveMarker(t[1..], Marker);
            assert RemoveMarker(t[1..], Marker) == "";
          }
        }
        assert !StartsWith(r, Marker);
      }
    }
  }

  /** A text in which the marker does not occur is untouched. */
  lemma {:induction false} AbsentMarkerUntouched(s: string, m: string)
    requires |m| > 0
    requires !Contains(s, m)
    ensures RemoveMarker(s, m) == s
    decreases |s|
  {
    if |s| > 0 {
      AbsentMarkerUntouched(s[1..], m);
    }
  }

  /** Every "```json" holds a "```". */
  lemma JsonMarkerHoldsMarker(s: string)
    requires Contains(s, JsonMarker)
    ensures Contains(s, Marker)
  {
    ContainsIff(s, JsonMarker);
    var i :| OccursAt(s, JsonMarker, i);
    assert s[i..i + 3] == s[i..i + 7][..3];
    assert OccursAt(s, Marker, i);
    ContainsIff(s, Marker);
  }

  /** Cleaning an already cleaned reply changes nothing. */
  lemma StripFencesIdempotent(reply: string)
    ensures StripFences(StripFences(reply)) == StripFences(reply)
  {
    var r := StripFences(reply);
    if Contains(r, JsonMarker) {
      JsonMarkerHoldsMarker(r);
    }
    AbsentMarkerUntouched(r, JsonMarker);
    AbsentMarkerUntouched(r, Marker);
    TrimIdempotent(RemoveMarker(RemoveMarker(reply, JsonMarker), Marker));
  }

  /** Text without backticks is untouched by marker removal. */
  lemma {:induction false} NoBacktickUntouched(s: string, m: string)
    requires |m| > 0 && m[0] == '`'
    requires '`' !in s
    ensures RemoveMarker(s, m) == s
    decreases |s|
  {
    if |s| > 0 {
      NoBacktickUntouched(s[1..], m);
    }
  }

  /** A backtick-free front is copied, and removal continues after it. */
  lemma {:induction false} NoBacktickPrefix(a: string, b: string, m: string)
    requires |m| > 0 && m[0] == '`'
    requires '`' !in a
    ensures RemoveMarker(a + b, m) == a + RemoveMarker(b, m)
    decreases |a|
  {
    if |a| > 0 {
      assert (a + b)[1..] == a[1..] + b;
      NoBacktickPrefix(a[1..], b, m);
    } else {
      assert a + b == b;
    }
  }

  /** Text that holds no backtick comes out of the clean-up merely trimmed. */
  lemma UnfencedIsTrimmed(j: string)
    requires '`' !in j
    ensures StripFences(j) == Trim(j)
  {
    NoBacktickUntouched(j, JsonMarker);
    NoBacktickUntouched(j, Marker);
  }

  /** The round trip the clean-up exists for: a reply wrapped as
      "```json\n" + j + "\n```" parses as the same text as j itself. */
  lemma JsonFencedSameAsUnfenced(j: string)
    requires '`' !in j
    ensures StripFences("```json\n" + j + "\n```") == StripFences(j) == Trim(j)
  {
    var s := "```json\n" + j + "\n```";
    JsonOpeningRemoved(j);
    ClosingFenceRemoved(j);
    assert j + "\n" == j + ['\n'];
    TrimAppendWs(j, '\n');
    UnfencedIsTrimmed(j);
  }

  /** The "```json" pass deletes the opening marker and its newline. */
  lemma JsonOpeningRemoved(j: string)
    requires '`' !in j
    ensures RemoveMarker("```json\n" + j + "\n```", JsonMarker) == j + "\n```"
  {
    var s := "```json\n" + j + "\n```";
    assert StartsWith(s, JsonMarker) && s[7] == '\n';
    assert s[8..] == j + "\n```";
    NoBacktickPrefix(j, "\n```", JsonMarker);
    assert RemoveMarker("\n```", JsonMarker) == "\n```" by {
      KeepsPlainHead("\n```", JsonMarker);
      ClosingFenceKept();
      assert "\n```"[1..] == Marker;
    }
  }

  /** The "```" pass deletes the closing marker. */
  lemma ClosingFenceRemoved(j: string)
    requires '`' !in j
    ensures RemoveMarker(j + "\n```", Marker) == j + "\n"
  {
    var front := j + "\n";
    assert '`' !in front by {
      forall i | 0 <= i < |front| ensures front[i] != '`' {
        if i < |j| { assert front[i] == j[i]; }
      }
    }
    NoBacktickPrefix(front, Marker, Marker);
    assert RemoveMarker(Marker, Marker) == "";
    assert front + Marker == j + "\n```";
  }

  /** The "```json" pass leaves a bare-fenced reply alone. */
  lemma PlainFenceSurvivesJsonPass(j: string)
    requires '`' !in j
    ensures RemoveMarker("```\n" + j + "\n```", JsonMarker) == "```\n" + j + "\n```"
  {
    var s := "```\n" + j + "\n```";
    var tail := "\n" + j + "\n```";
    assert s[1..] == "``" + tail && s[2..] == "`" + tail && s[3..] == tail;
    Mismatch(s, JsonMarker, 3);
    Mismatch(s[1..], JsonMarker, 2);
    Mismatch(s[2..], JsonMarker, 1);
    CopiesHead(s, JsonMarker);
    CopiesHead(s[1..], JsonMarker);
    CopiesHead(s[2..], JsonMarker);
    assert s[1..][1..] == s[2..] && s[2..][1..] == s[3..];
    JsonPassKeepsTail(j);
    assert [s[2]] + s[3..] == s[2..];
    assert [s[1]] + s[2..] == s[1..];
    assert [s[0]] + s[1..] == s;
  }

  /** Without the marker at its head, the first character is copied. */
  lemma CopiesHead(t: string, m: string)
    requires |m| > 0 && |t| > 0 && !StartsWith(t, m)
    ensures RemoveMarker(t, m) == [t[0]] + RemoveMarker(t[1..], m)
  {
  }

  /** The closing part of a bare fence passes the "```json" pass. */
  lemma JsonPassKeepsTail(j: string)
    requires '`' !in j
    ensures RemoveMarker("\n" + j + "\n```", JsonMarker) == "\n" + j + "\n```"
  {
    var front := "\n" + j + "\n";
    assert '`' !in front by {
      forall i | 0 <= i < |front| ensures front[i] != '`' {
        if 0 < i < |front| - 1 { assert front[i] == j[i - 1]; }
      }
    }
    NoBacktickPrefix(front, Marker, JsonMarker);
    ClosingFenceKept();
    assert front + Marker == "\n" + j + "\n```";
  }

  /** A bare "```" is too short to hold the "```json" marker. */
  lemma ClosingFenceKept()
    ensures RemoveMarker(Marker, JsonMarker) == Marker
  {
    var m := Marker;
    assert !StartsWith(m, JsonMarker) && !StartsWith(m[1..], JsonMarker) && !StartsWith(m[2..], JsonMarker);
    assert m[1..][1..] == m[2..] && m[2..][1..] == [];
    assert RemoveMarker(m[2..], JsonMarker) == m[2..];
    assert RemoveMarker(m[1..], JsonMarker) == m[1..];
  }

  /** The "```" pass removes both bare fences and the newline after the first. */
  lemma PlainFenceRemoved(j: string)
    requires '`' !in j
    ensures RemoveMarker("```\n" + j + "\n```", Marker) == j + "\n"
  {
    var s := "```\n" + j + "\n```";
    assert StartsWith(s, Marker) && s[3] == '\n';
    assert s[4..] == (j + "\n") + "```";
    NoBacktickPrefix(j + "\n", "```", Marker);
    assert RemoveMarker("```", Marker) == "";
  }

  /** A reply fenced with a bare "```\n" … "\n```" is cleaned up the same way. */
  lemma PlainFencedSameAsUnfenced(j: string)
    requires '`' !in j
    ensures StripFences("```\n" + j + "\n```") == Trim(j)
  {
    PlainFenceSurvivesJsonPass(j);
    PlainFenceRemoved(j);
    assert j + "\n" == j + ['\n'];
    TrimAppendWs(j, '\n');
  }
}
