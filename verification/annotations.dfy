/** The metadata annotations through which the agents of the cluster talk to each other. */
module Annotations {

  /** The reserved annotation keys of packages drain and rollout; every other key is `Other`. */
  datatype Key =
    | DrainSupported
    | DrainStarted
    | DrainAcknowledged
    | DrainFinished
    | RolloutScheduled
    | RolloutReleased
    | RolloutCascade
    | Other(name: string)

  type Annotations = map<Key, string>

  /** The in-memory copy of an API object: what the setters of packages drain and rollout mutate. */
  class Object {
    var annotations: Annotations

    constructor (annotations: Annotations)
      ensures this.annotations == annotations
    {
      this.annotations := annotations;
    }
  }
}
