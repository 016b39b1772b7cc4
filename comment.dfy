/** The clamp `post_comment` applies to a comment before handing it to the
    GitHub command-line client. */
module Comment {

  /** The longest comment body the program posts. */
  const MAX_COMMENT_LENGTH: nat := 65536

  /** The body actually posted: the comment itself when it fits, otherwise
      its first `MAX_COMMENT_LENGTH` characters. */
  method TruncateComment(comment: string) returns (posted: string)
    ensures |posted| <= MAX_COMMENT_LENGTH
    ensures posted <= comment
    ensures |comment| <= MAX_COMMENT_LENGTH ==> posted == comment
    ensures |comment| > MAX_COMMENT_LENGTH ==> |posted| == MAX_COMMENT_LENGTH
  {
    posted := comment;
    if |posted| > MAX_COMMENT_LENGTH {
      posted := posted[..MAX_COMMENT_LENGTH];
    }
  }

  /** Truncating an already posted body leaves it as it is. */
  method TruncateTwice(comment: string) returns (once: string, twice: string)
    ensures once == twice
    ensures once <= comment && |once| <= MAX_COMMENT_LENGTH
  {
    once := TruncateComment(comment);
    twice := TruncateComment(once);
  }
}
