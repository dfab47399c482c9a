/**
 * The query text of the users UPDATE statement: the SET assignments the
 * handler may emit, the text around them, and how many `?` placeholders the
 * result carries.
 */
module UserSql {
  import opened Text

  const SetName := "name = ?"
  const SetEmail := "email = ?"
  const TouchUpdatedAt := "updated_at = datetime('now')"

  const UpdateHead := "UPDATE users SET "
  const UpdateTail := " WHERE id = ? RETURNING *"

  /** `UPDATE users SET ${assignments.join(', ')} WHERE id = ? RETURNING *` */
  function UpdateSql(assignments: seq<string>): string {
    UpdateHead + Join(assignments, ", ") + UpdateTail
  }

  /** The number of `?` placeholders in a piece of query text. */
  function Placeholders(sql: string): nat {
    Occurrences(sql, '?')
  }

  /** The three assignments are different texts (they have different lengths). */
  lemma AssignmentsDiffer()
    ensures SetName != SetEmail && SetName != TouchUpdatedAt && SetEmail != TouchUpdatedAt
  {
    assert |SetName| == 8 && |SetEmail| == 9 && |TouchUpdatedAt| == 28;
  }

  lemma SetNamePlaceholders()
    ensures Placeholders(SetName) == 1
  {
  }

  lemma SetEmailPlaceholders()
    ensures Placeholders(SetEmail) == 1
  {
  }

  lemma TouchPlaceholders()
    ensures Placeholders(TouchUpdatedAt) == 0
  {
    OccurrencesAbsent(TouchUpdatedAt, '?');
  }

  lemma {:induction false} OnePlaceholder(before: string, after: string)
    requires '?' !in before && '?' !in after
    ensures Placeholders(before + ("?" + after)) == 1
  {
    OccurrencesAbsent(before, '?');
    OccurrencesAbsent(after, '?');
    OccurrencesConcat(before, "?" + after, '?');
    OccurrencesConcat("?", after, '?');
  }

  lemma HeadPlaceholders()
    ensures '?' !in UpdateHead
  {
  }

  lemma TailPlaceholders()
    ensures Placeholders(UpdateTail) == 1
  {
    assert UpdateTail == " WHERE id = " + ("?" + " RETURNING *");
    OnePlaceholder(" WHERE id = ", " RETURNING *");
  }

  lemma {:induction false} FramedPlaceholders(head: string, parts: seq<string>, tail: string)
    requires '?' !in head && '?' !in ", "
    ensures Placeholders(head + Join(parts, ", ") + tail)
         == TotalOccurrences(parts, '?') + Placeholders(tail)
  {
    var joined := Join(parts, ", ");
    assert head + joined + tail == head + (joined + tail);
    OccurrencesAbsent(head, '?');
    OccurrencesConcat(head, joined + tail, '?');
    OccurrencesConcat(joined, tail, '?');
    JoinOccurrences(parts, ", ", '?');
  }

  /** The UPDATE text has the SET list's placeholders plus the one for the id. */
  lemma UpdatePlaceholders(assignments: seq<string>)
    ensures Placeholders(UpdateSql(assignments)) == TotalOccurrences(assignments, '?') + 1
  {
    HeadPlaceholders();
    TailPlaceholders();
    FramedPlaceholders(UpdateHead, assignments, UpdateTail);
  }
}
