/**
  The blog post and newsletter subscription documents.
 */
module ContentModel {
  import opened Common

  datatype Reward = Reward(code: string, reward: string, validity: string)

  datatype Blog = Blog(
    author: string,
    title: string,
    description: string,
    blogImage: string,
    altTag: string,
    rewards: seq<Reward>,
    published: bool,
    updatedAt: Time,
    isDeleted: bool)

  /** Each reward sub-document has a code, a reward and a validity. */
  predicate RewardsValid(rewards: seq<Reward>) {
    forall i :: 0 <= i < |rewards| ==>
      rewards[i].code != "" && rewards[i].reward != "" && rewards[i].validity != ""
  }

  /** The blog schema: every string path is required, hence non-empty. */
  predicate BlogSchemaValid(b: Blog) {
    && b.author != ""
    && b.title != ""
    && b.description != ""
    && b.blogImage != ""
    && b.altTag != ""
    && RewardsValid(b.rewards)
  }

  /** A newsletter subscription. */
  datatype Subscription = Subscription(email: string, isDeleted: bool)
}
