/**
 What a notification is, and how each delivery channel cuts its body down
 before handing it on. SMTP and the Pushover HTTP call are not modelled;
 a delivery is recorded as the value that would be sent.
 */
module Notify {
  import opened Basics
  import opened Text

  /** One call of `sendNotification`: subject, body lines and Pushover priority. */
  datatype Notification = Notification(subject: string, lines: seq<string>, priority: int)

  /** `sendNotification(..., priority=1)`: every alert of both scripts uses the default. */
  const DefaultPriority := 1

  const EmailLineLimit := 1000
  const PushoverLineLimit := 50

  /** Python's slice `s[start:]`, negative starts counting from the end. */
  function SliceFrom<T>(s: seq<T>, start: int): (r: seq<T>)
    ensures IsSuffix(r, s)
    ensures 0 <= start <= |s| ==> |r| == |s| - start
    ensures start > |s| ==> r == []
    ensures -|s| <= start < 0 ==> |r| == -start
    ensures start < -|s| ==> r == s
  {
    if start >= 0 then (if start <= |s| then s[start..] else [])
    else if |s| + start >= 0 then s[|s| + start..]
    else s
  }

  /**
   `shorten(body_lines, limit)`. The result is always the join of a tail of
   the lines, hence a tail of the full joined body: the "shortened" marker
   the scripts build is thrown away, so nothing is ever appended. For a
   positive limit exactly the last `limit` lines survive; a zero limit keeps
   everything, because `body_lines[-0:]` is the whole list.
   */
  function Shorten(lines: seq<string>, limit: int): (r: string)
    ensures IsSuffix(r, Join(lines))
    ensures |lines| <= limit ==> r == Join(lines)
    ensures 0 < limit < |lines| ==> r == Join(lines[|lines| - limit..])
    ensures limit == 0 ==> r == Join(lines)
    ensures limit < 0 ==> r == Join(lines[Min(-limit, |lines|)..])
  {
    if |lines| > limit then
      var kept := SliceFrom(lines, -limit);
      assert kept == lines[|lines| - |kept|..];
      JoinOfTailIsSuffix(lines, |lines| - |kept|);
      Join(kept)
    else
      Join(lines)
  }

  /**
   What a channel keeps of a body under a positive line limit: a tail of
   the joined text, the whole text when it fits, and exactly the last
   `limit` lines otherwise.
   */
  predicate KeepsTail(body: string, lines: seq<string>, limit: int)
    requires limit > 0
  {
    && IsSuffix(body, Join(lines))
    && (|lines| <= limit ==> body == Join(lines))
    && (|lines| > limit ==> body == Join(lines[|lines| - limit..]))
  }

  /** What one channel hands to its transport. */
  datatype Delivery =
    | Email(subject: string, body: string)
    | Pushover(title: string, message: string, priority: int)

  /**
   `sendEmailNotification` then the Pushover sender, each skipped when it is
   not configured. The mail body keeps the last 1000 lines, the push
   message the last 50 and the priority; both carry the notification's
   subject.
   */
  function Deliver(n: Notification, emailConfigured: bool, pushoverConfigured: bool): (r: seq<Delivery>)
    ensures |r| == (if emailConfigured then 1 else 0) + (if pushoverConfigured then 1 else 0)
    ensures emailConfigured ==>
              && r[0].Email? && r[0].subject == n.subject
              && KeepsTail(r[0].body, n.lines, EmailLineLimit)
    ensures pushoverConfigured ==>
              && r[|r| - 1].Pushover? && r[|r| - 1].title == n.subject
              && r[|r| - 1].priority == n.priority
              && KeepsTail(r[|r| - 1].message, n.lines, PushoverLineLimit)
  {
    (if emailConfigured then [Email(n.subject, Shorten(n.lines, EmailLineLimit))] else [])
    + (if pushoverConfigured then [Pushover(n.subject, Shorten(n.lines, PushoverLineLimit), n.priority)] else [])
  }
}
