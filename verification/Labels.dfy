/** The keys of labels, annotations and node selectors that several components read. */
module Labels {
  const ACCELERATOR := "cloud.google.com/gke-tpu-accelerator"
  const TOPOLOGY := "cloud.google.com/gke-tpu-topology"
  const JOBSET_NAME := "jobset.sigs.k8s.io/jobset-name"
}
